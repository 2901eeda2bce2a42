/** What each CODE word means, as mathematics on the data it may touch; nothing here knows about
    instructions, registers or loops. Flags are the -1 and 0 of section 3.1.3.1 of Forth 2012. */
module Words {
  import opened Wrappers
  import opened Isa
  import opened Cpu
  import opened Layout
  import opened Stacks
  import opened AbstractMachine
  import opened DictionaryShape
  import Bits

  /** The dictionary a program runs against, and the first cell it may store to. */
  datatype Context = Context(dict: seq<WordEntry>, top: int)

  function Flag(b: bool): int { if b then -1 else 0 }

  // ---- stack words ----

  function Shuffle(p: Prim, s: Stack): Option<Stack> {
    if s.Empty? then None
    else
      var c, s1 := s.top, s.rest;
      if p == DUP then Some(Push(c, s))
      else if p == DROP then Some(s1)
      else if s1.Empty? then None
      else
        var b, s2 := s1.top, s1.rest;
        if p == SWAP then Some(Push(b, Push(c, s2)))
        else if p == OVER then Some(Push(b, s))
        else if p == NIP then Some(Push(c, s2))
        else if p == TUCK then Some(Push(c, Push(b, Push(c, s2))))
        else if s2.Empty? then None
        else if p == ROT then Some(Push(s2.top, Push(c, Push(b, s2.rest))))
        else if p == NROT then Some(Push(b, Push(s2.top, Push(c, s2.rest))))
        else None
  }

  // ---- arithmetic and logic ----

  predicate IsZeroTest(p: Prim) { p == ZEROEQ || p == ZEROLT }

  predicate IsPairTest(p: Prim) { p == EQUALS || p == NOTEQUALS || p == LESSTHAN || p == GREATERTHAN }

  /** What `0=` and `0<` ask. */
  predicate Tests(p: Prim, a: int) { if p == ZEROEQ then a == 0 else a < 0 }

  /** What `=`, `<>`, `<` and `>` ask. */
  predicate Compares(p: Prim, a: int, b: int) {
    if p == EQUALS then a == b else if p == NOTEQUALS then a != b else if p == LESSTHAN then a < b else a > b
  }

  /** Words with the stack effect ( a -- r ). */
  function Unary(p: Prim, a: int): Option<int> {
    if IsZeroTest(p) then Some(Flag(Tests(p, a)))
    else
      match p
      case NEGATE => Some(-a)
      case ABS => Some(if a < 0 then -a else a)
      case ONEPLUS => Some(a + 1)
      case ONEMINUS => Some(a - 1)
      case BITINVERT => Some(Bits.Invert(a))
      case _ => None
  }

  /** Words with the stack effect ( a b -- r ). The kernel's `*` has no answer for a negative
      multiplier: it never stops. */
  function Binary(p: Prim, a: int, b: int): Option<int> {
    if IsPairTest(p) then Some(Flag(Compares(p, a, b)))
    else
      match p
      case PLUS => Some(a + b)
      case MINUS => Some(a - b)
      case MUL => if b >= 0 then Some(a * b) else None
      case BITAND => Some(Bits.And(a, b))
      case BITOR => Some(Bits.Or(a, b))
      case _ => None
  }

  // ---- counted strings and numbers ----

  /** A counted string lies inside the block at `a`. */
  predicate Counted(low: seq<int>, a: int) {
    0 <= a < |low| && 0 <= low[a] && a + 1 + low[a] <= |low|
  }

  function CountedText(low: seq<int>, a: int): (text: seq<int>)
    requires Counted(low, a)
    ensures |text| == low[a]
  {
    low[a + 1..a + 1 + low[a]]
  }

  predicate IsDigit(c: int) { 48 <= c <= 57 }

  predicate AllDigits(s: seq<int>) { forall i :: 0 <= i < |s| ==> IsDigit(s[i]) }

  /** The value of a string of digits, most significant first. */
  function DigitsValue(s: seq<int>): int {
    if s == [] then 0 else 10 * DigitsValue(s[..|s| - 1]) + (s[|s| - 1] - 48)
  }

  /** A number is an optional '-' and then at least one digit. */
  function ParseNumber(s: seq<int>): Option<int> {
    if s != [] && s[0] == 45 then
      if |s| > 1 && AllDigits(s[1..]) then Some(-DigitsValue(s[1..])) else None
    else
      if s != [] && AllDigits(s) then Some(DigitsValue(s)) else None
  }

  // ---- tokens ----

  /** How many delimiters the input starts with. */
  function Leading(input: seq<int>, delim: int): nat {
    if input != [] && input[0] == delim then 1 + Leading(input[1..], delim) else 0
  }

  /** How many non-delimiters the input starts with. */
  function TokenLength(input: seq<int>, delim: int): nat {
    if input != [] && input[0] != delim then 1 + TokenLength(input[1..], delim) else 0
  }

  lemma LeadingBound(input: seq<int>, delim: int)
    ensures Leading(input, delim) <= |input|
  {
  }

  lemma TokenLengthBound(input: seq<int>, delim: int)
    ensures TokenLength(input, delim) <= |input|
  {
  }

  datatype Scan = Scan(text: seq<int>, rest: seq<int>)

  /** The next token and what follows its closing delimiter; none when the input runs out first. */
  function NextToken(input: seq<int>, delim: int): Option<Scan> {
    LeadingBound(input, delim);
    var body := input[Leading(input, delim)..];
    TokenLengthBound(body, delim);
    var n := TokenLength(body, delim);
    if n < |body| then Some(Scan(body[..n], body[n + 1..])) else None
  }

  /** The block with a counted string written at `a`. */
  function WithCounted(low: seq<int>, a: int, text: seq<int>): (low': seq<int>)
    requires 0 <= a && a + 1 + |text| <= |low|
    ensures |low'| == |low|
  {
    low[..a] + [|text|] + text + low[a + 1 + |text|..]
  }

  // ---- dictionary search ----

  predicate Answers(e: WordEntry, s: seq<int>) { e.smudge == 0 && Codes(e.name) == s }

  /** The newest of the first `n` words that is visible and has this name. */
  function Newest(es: seq<WordEntry>, s: seq<int>, n: nat): Option<nat>
    requires n <= |es|
  {
    if n == 0 then None else if Answers(es[n - 1], s) then Some(n - 1) else Newest(es, s, n - 1)
  }

  /** FIND's answer: a CFA with 1 (immediate) or -1 (normal), or two zeros. */
  function Found(es: seq<WordEntry>, s: seq<int>): (int, int) {
    match Newest(es, s, |es|)
    case None => (0, 0)
    case Some(i) => if i < |es| then (Cfa(es, i), if es[i].immediate == 0 then -1 else 1) else (0, 0)
  }

  // ---- every word ----

  function WithStack(d: Data, s: Stack): Option<Data> {
    if Depth(s) <= DATA_STACK_SIZE then Some(d.(ds := s)) else None
  }

  predicate IsShuffle(p: Prim) {
    p == DUP || p == DROP || p == SWAP || p == OVER || p == ROT || p == NROT || p == NIP || p == TUCK
  }

  predicate IsReturnWord(p: Prim) { p == TOR || p == FROMR || p == RFETCH }

  predicate IsDeviceWord(p: Prim) { p == KEY || p == EMIT }

  predicate IsMemory(p: Prim) { p == FETCH || p == CFETCH || p == STOREW || p == CSTOREW }

  /** The meaning of a word on the data `d`, whose return stack holds the running definition's own
      cells with `depth` more below them. `None` when the word has no meaning there. */
  function Meaning(c: Context, p: Prim, d: Data, depth: nat): Option<Data> {
    if IsShuffle(p) then ShuffleMeaning(p, d)
    else if IsReturnWord(p) then ReturnMeaning(p, d, depth)
    else if IsDeviceWord(p) then DeviceMeaning(p, d)
    else if d.ds.Empty? then None
    else if IsMemory(p) then
      if p == FETCH || p == CFETCH then FetchMeaning(d, d.ds.top, d.ds.rest)
      else StoreMeaning(c, d, d.ds.top, d.ds.rest)
    else if p == NUMBER then NumberMeaning(d, d.ds.top, d.ds.rest)
    else if p == WORD then WordMeaning(c, d, d.ds.top, d.ds.rest)
    else if p == FIND then FindMeaning(c, d, d.ds.top, d.ds.rest)
    else ArithmeticMeaning(p, d, d.ds.top, d.ds.rest)
  }

  function ShuffleMeaning(p: Prim, d: Data): Option<Data> {
    match Shuffle(p, d.ds)
    case None => None
    case Some(s) => WithStack(d, s)
  }

  function ReturnMeaning(p: Prim, d: Data, depth: nat): Option<Data> {
    if p == TOR then
      if d.ds.Push? && depth + Depth(d.rs) < RETURN_STACK_SIZE then
        Some(d.(rs := Push(d.ds.top, d.rs), ds := d.ds.rest))
      else None
    else if d.rs.Empty? then None
    else WithStack(if p == FROMR then d.(rs := d.rs.rest) else d, Push(d.rs.top, d.ds))
  }

  function DeviceMeaning(p: Prim, d: Data): Option<Data> {
    if p == KEY then
      if d.input == [] then None else WithStack(d.(input := d.input[1..]), Push(d.input[0], d.ds))
    else
      if d.ds.Empty? then None else Some(d.(ds := d.ds.rest, output := d.output + [d.ds.top]))
  }

  function FetchMeaning(d: Data, address: int, s: Stack): Option<Data> {
    if InBlock(d, address) then WithStack(d, Push(d.low[address], s)) else None
  }

  function NumberMeaning(d: Data, a: int, s: Stack): Option<Data> {
    if !Counted(d.low, a) then None
    else
      match ParseNumber(CountedText(d.low, a))
      case None => WithStack(d, Push(0, Push(0, s)))
      case Some(n) => WithStack(d, Push(1, Push(n, s)))
  }

  function WordMeaning(c: Context, d: Data, delim: int, s: Stack): Option<Data> {
    match NextToken(d.input, delim)
    case None => None
    case Some(t) =>
      if c.top <= WORD_BUFFER_BASE && WORD_BUFFER_BASE + 1 + |t.text| <= |d.low| then
        WithStack(d.(low := WithCounted(d.low, WORD_BUFFER_BASE, t.text), input := t.rest), Push(WORD_BUFFER_BASE, s))
      else None
  }

  function FindMeaning(c: Context, d: Data, a: int, s: Stack): Option<Data> {
    if !Counted(d.low, a) then None
    else
      var (xt, flag) := Found(c.dict, CountedText(d.low, a));
      WithStack(d, Push(flag, Push(xt, s)))
  }

  function ArithmeticMeaning(p: Prim, d: Data, b: int, s: Stack): Option<Data> {
    if Unary(p, b).Some? then Some(d.(ds := Push(Unary(p, b).value, s)))
    else if s.Push? && Binary(p, s.top, b).Some? then Some(d.(ds := Push(Binary(p, s.top, b).value, s.rest)))
    else None
  }

  function StoreMeaning(c: Context, d: Data, address: int, s: Stack): Option<Data> {
    if s.Push? && c.top <= address && InBlock(d, address) then
      Some(d.(low := d.low[address := s.top], ds := s.rest))
    else None
  }

  // ---- words where they have no meaning ----

  /** How many values a word takes from the data stack before it does anything else. */
  function Operands(p: Prim): nat {
    if p in {LIT, EXIT, BYE, KEY, FROMR, RFETCH} then 0
    else if p in {ROT, NROT} then 3
    else if p in {SWAP, OVER, NIP, TUCK, STOREW, CSTOREW, PLUS, MINUS, MUL, BITAND, BITOR} || IsPairTest(p) then 2
    else 1
  }

  /** What becomes of a word that has no meaning: it is refused, it never ends, or it goes where
      evaluation does not follow: to memory outside the block or cells that programs must not store
      to, to return-stack cells that are not the definition's own, or past the end of a string. */
  datatype Trouble = Hits(fault: Fault) | Forever | Beyond

  function TroubleOf(p: Prim, d: Data, depth: nat): Trouble {
    if p in {LIT, EXIT, BYE} then Beyond
    else if Depth(d.ds) < Operands(p) then Hits(EmptyData)
    else if IsReturnWord(p) then ReturnTrouble(p, d, depth)
    else if p == KEY then Hits(if d.input == [] then NoInput else FullData)
    else if IsShuffle(p) then Hits(FullData)
    else if p == MUL then Forever
    else if p == NUMBER || p == FIND then
      if d.ds.Push? && Counted(d.low, d.ds.top) then Hits(FullData) else Beyond
    else if p == WORD then
      if d.ds.Push? && RunsDry(d, d.ds.top) then Hits(NoInput) else Beyond
    else Beyond
  }

  function ReturnTrouble(p: Prim, d: Data, depth: nat): Trouble {
    if p == TOR then Hits(FullReturn)
    else if d.rs.Push? then Hits(FullData)
    else if depth == 0 then Hits(EmptyReturn)
    else Beyond
  }

  /** The input ends before a token does, and what there is of the token fits the buffer. */
  predicate RunsDry(d: Data, delim: int) {
    LeadingBound(d.input, delim);
    var body := d.input[Leading(d.input, delim)..];
    TokenLength(body, delim) == |body| && WORD_BUFFER_BASE + |body| < |d.low|
  }

  // ---- `Meaning`, one kind of word at a time ----

  lemma ShuffleIs(c: Context, p: Prim, d: Data, depth: nat)
    requires IsShuffle(p)
    ensures Meaning(c, p, d, depth) == ShuffleMeaning(p, d)
  {
    hide ShuffleMeaning, ReturnMeaning, DeviceMeaning, FetchMeaning, StoreMeaning, NumberMeaning, WordMeaning,
         FindMeaning, ArithmeticMeaning;
  }

  lemma ReturnIs(c: Context, p: Prim, d: Data, depth: nat)
    requires IsReturnWord(p)
    ensures Meaning(c, p, d, depth) == ReturnMeaning(p, d, depth)
  {
    hide ShuffleMeaning, ReturnMeaning, DeviceMeaning, FetchMeaning, StoreMeaning, NumberMeaning, WordMeaning,
         FindMeaning, ArithmeticMeaning;
  }

  lemma DeviceIs(c: Context, p: Prim, d: Data, depth: nat)
    requires IsDeviceWord(p)
    ensures Meaning(c, p, d, depth) == DeviceMeaning(p, d)
  {
    hide ShuffleMeaning, ReturnMeaning, DeviceMeaning, FetchMeaning, StoreMeaning, NumberMeaning, WordMeaning,
         FindMeaning, ArithmeticMeaning;
  }

  lemma FetchIs(c: Context, p: Prim, d: Data, depth: nat)
    requires p == FETCH || p == CFETCH
    ensures Meaning(c, p, d, depth) == if d.ds.Empty? then None else FetchMeaning(d, d.ds.top, d.ds.rest)
  {
    hide ShuffleMeaning, ReturnMeaning, DeviceMeaning, FetchMeaning, StoreMeaning, NumberMeaning, WordMeaning,
         FindMeaning, ArithmeticMeaning;
  }

  lemma StoreIs(c: Context, p: Prim, d: Data, depth: nat)
    requires p == STOREW || p == CSTOREW
    ensures Meaning(c, p, d, depth) == if d.ds.Empty? then None else StoreMeaning(c, d, d.ds.top, d.ds.rest)
  {
    hide ShuffleMeaning, ReturnMeaning, DeviceMeaning, FetchMeaning, StoreMeaning, NumberMeaning, WordMeaning,
         FindMeaning, ArithmeticMeaning;
  }

  lemma NumberIs(c: Context, d: Data, depth: nat)
    ensures Meaning(c, NUMBER, d, depth) == if d.ds.Empty? then None else NumberMeaning(d, d.ds.top, d.ds.rest)
  {
    hide ShuffleMeaning, ReturnMeaning, DeviceMeaning, FetchMeaning, StoreMeaning, NumberMeaning, WordMeaning,
         FindMeaning, ArithmeticMeaning;
  }

  lemma WordIs(c: Context, d: Data, depth: nat)
    ensures Meaning(c, WORD, d, depth) == if d.ds.Empty? then None else WordMeaning(c, d, d.ds.top, d.ds.rest)
  {
    hide ShuffleMeaning, ReturnMeaning, DeviceMeaning, FetchMeaning, StoreMeaning, NumberMeaning, WordMeaning,
         FindMeaning, ArithmeticMeaning;
  }

  lemma FindIs(c: Context, d: Data, depth: nat)
    ensures Meaning(c, FIND, d, depth) == if d.ds.Empty? then None else FindMeaning(c, d, d.ds.top, d.ds.rest)
  {
    hide ShuffleMeaning, ReturnMeaning, DeviceMeaning, FetchMeaning, StoreMeaning, NumberMeaning, WordMeaning,
         FindMeaning, ArithmeticMeaning;
  }
}
