/** What `ForthService` computes (`services/forth.py`): the primitives it knows, and colon
    definitions run word by word, each name looked up when it is reached. */
module ForthWords {
  import opened Wrappers
  import opened Isa
  import opened Cpu
  import opened Layout
  import opened Stacks
  import opened AbstractMachine
  import opened Words
  import opened KernelSource
  import Bits

  /** The error of a port, `UnknownWordError`, or one of Python's own: `RecursionError`, `ZeroDivisionError`,
      and the `TypeError` of a word that cannot be called without an argument. */
  datatype ForthError =
    | Machine(error: MachineError) | UnknownWord(name: string) | RecursionLimit | ZeroDivision | MissingArgument

  /** The shared data path, the interpreter's registers and whether `BYE` has run. */
  datatype Forth = Forth(d: Data, regs: Regs, halted: bool)

  /** `OutOfBlock` is answered for `@` and `!` outside the dictionary block, where what they do
      depends on where the two stacks lie. */
  datatype Answer = Fine(f: Forth) | Raises(error: ForthError) | OutOfBlock

  const UNDERFLOW := Raises(Machine(StackUnderflow))
  const OVERFLOW := Raises(Machine(StackOverflow))

  /** An entry of `self.dictionary`: a primitive the kernel has too, a division, a word that does nothing
      yet, one that only works with an argument, or a call of `_execute_colon`. */
  datatype ForthWord =
    | Primitive(prim: Prim) | Quotient | Remainder | Placeholder | NeedsArgument | Definition(name: string)

  /** `self.dictionary` and `self.colon_defs`. */
  datatype Vocabulary = Vocabulary(entries: map<string, ForthWord>, colonDefs: map<string, seq<string>>)

  /** The kernel's CODE words that `build_minimal_dictionary` also installs, under the same names. */
  predicate Shared(p: Prim) {
    !(p in {LIT, CFETCH, CSTOREW, KEY, EMIT, NUMBER, WORD, FIND})
  }

  /** Every definition has its code, and every primitive is one `ForthService` has. */
  predicate Closed(v: Vocabulary) {
    forall name :: name in v.entries ==>
      match v.entries[name]
      case Primitive(p) => Shared(p)
      case Definition(n) => n in v.colonDefs
      case _ => true
  }

  function BoolCell(b: bool): int { if b then 1 else 0 }

  /** ( a -- r ), with 1 for true. */
  function UnaryOp(p: Prim, a: int): Option<int> {
    match p
    case ZEROEQ => Some(BoolCell(a == 0))
    case ZEROLT => Some(BoolCell(a < 0))
    case _ => Unary(p, a)
  }

  /** ( a b -- r ), with 1 for true; multiplication is total. */
  function BinaryOp(p: Prim, a: int, b: int): int {
    match p
    case PLUS => a + b
    case MINUS => a - b
    case MUL => a * b
    case EQUALS => BoolCell(a == b)
    case NOTEQUALS => BoolCell(a != b)
    case LESSTHAN => BoolCell(a < b)
    case GREATERTHAN => BoolCell(a > b)
    case BITAND => Bits.And(a, b)
    case _ => Bits.Or(a, b)
  }

  predicate IsUnary(p: Prim) { p in {NEGATE, ABS, ONEPLUS, ONEMINUS, BITINVERT, ZEROEQ, ZEROLT} }

  predicate IsBinary(p: Prim) {
    p in {PLUS, MINUS, MUL, EQUALS, NOTEQUALS, LESSTHAN, GREATERTHAN, BITAND, BITOR}
  }

  lemma UnaryDefined(p: Prim, a: int)
    ensures UnaryOp(p, a).Some? <==> IsUnary(p)
  {
  }

  function OnStack(f: Forth, s: Stack): Answer {
    if Depth(s) <= DATA_STACK_SIZE then Fine(f.(d := f.d.(ds := s))) else OVERFLOW
  }

  /** A stack word. */
  function Rearrange(p: Prim, f: Forth): Answer {
    match Shuffle(p, f.d.ds)
    case None => UNDERFLOW
    case Some(s) => OnStack(f, s)
  }

  function ApplyUnary(p: Prim, f: Forth): Answer
    requires IsUnary(p)
  {
    UnaryDefined(p, if f.d.ds.Push? then f.d.ds.top else 0);
    if f.d.ds.Empty? then UNDERFLOW
    else OnStack(f, Push(UnaryOp(p, f.d.ds.top).value, f.d.ds.rest))
  }

  function ApplyBinary(p: Prim, f: Forth): Answer {
    if f.d.ds.Empty? || f.d.ds.rest.Empty? then UNDERFLOW
    else OnStack(f, Push(BinaryOp(p, f.d.ds.rest.top, f.d.ds.top), f.d.ds.rest.rest))
  }

  /** `>R`, `R>`, `R@` and `EXIT`. */
  function OnReturnStack(p: Prim, f: Forth): Answer {
    var d := f.d;
    if p == TOR then
      if d.ds.Empty? then UNDERFLOW
      else if Depth(d.rs) >= RETURN_STACK_SIZE then OVERFLOW
      else Fine(f.(d := d.(ds := d.ds.rest, rs := Push(d.ds.top, d.rs))))
    else if d.rs.Empty? then UNDERFLOW
    else if p == EXIT then Fine(f.(d := d.(rs := d.rs.rest), regs := Bind(f.regs, Reg(IP), d.rs.top)))
    else OnStack(if p == FROMR then f.(d := d.(rs := d.rs.rest)) else f, Push(d.rs.top, d.ds))
  }

  /** `@` and `!`. */
  function OnMemory(p: Prim, f: Forth): Answer {
    var d := f.d;
    if d.ds.Empty? then UNDERFLOW
    else if p == FETCH then
      if InBlock(d, d.ds.top) then OnStack(f, Push(d.low[d.ds.top], d.ds.rest)) else OutOfBlock
    else if d.ds.rest.Empty? then UNDERFLOW
    else if InBlock(d, d.ds.top) then
      Fine(f.(d := d.(ds := d.ds.rest.rest, low := d.low[d.ds.top := d.ds.rest.top])))
    else OutOfBlock
  }

  /** What a primitive does. */
  function Perform(p: Prim, f: Forth): Answer
    requires Shared(p)
  {
    if IsShuffle(p) then Rearrange(p, f)
    else if IsUnary(p) then ApplyUnary(p, f)
    else if IsBinary(p) then ApplyBinary(p, f)
    else if p == FETCH || p == STOREW then OnMemory(p, f)
    else if p == BYE then Fine(f.(halted := true))
    else OnReturnStack(p, f)
  }

  // ---- division ----

  /** Python's `//`: rounded down. Dafny's `/` rounds down for a positive divisor only. */
  function FloorQuotient(a: int, b: int): int
    requires b != 0
  {
    if b > 0 then a / b else -a / -b
  }

  /** Python's `%`: the sign of the divisor. */
  function FloorRemainder(a: int, b: int): int
    requires b != 0
  {
    if b > 0 then a % b else -(-a % -b)
  }

  /** The two make the dividend again, and the remainder lies between 0 and the divisor: no other pair does. */
  lemma FloorDivision(a: int, b: int, q: int, r: int)
    requires b != 0
    ensures q == FloorQuotient(a, b) && r == FloorRemainder(a, b)
       <==> a == b * q + r && (if b > 0 then 0 <= r < b else b < r <= 0)
  {
    var q0, r0 := FloorQuotient(a, b), FloorRemainder(a, b);
    assert a == b * q0 + r0;
    if a == b * q + r && (if b > 0 then 0 <= r < b else b < r <= 0) {
      SameQuotient(b, q, r, q0, r0);
    }
  }

  lemma SameQuotient(b: int, q: int, r: int, q': int, r': int)
    requires b * q + r == b * q' + r'
    requires if b > 0 then 0 <= r < b && 0 <= r' < b else b < r <= 0 && b < r' <= 0
    ensures q == q' && r == r'
  {
    var k := q - q';
    assert b * k == r' - r;
    AtLeastOne(b, k);
  }

  lemma AtLeastOne(b: int, k: int)
    ensures k > 0 ==> (b > 0 ==> b * k >= b) && (b < 0 ==> b * k <= b)
    ensures k < 0 ==> (b > 0 ==> b * k <= -b) && (b < 0 ==> b * k >= -b)
  {
  }

  /** `/` and `MOD`. */
  function ApplyDivision(w: ForthWord, f: Forth): Answer {
    if f.d.ds.Empty? || f.d.ds.rest.Empty? then UNDERFLOW
    else
      var b, a, s := f.d.ds.top, f.d.ds.rest.top, f.d.ds.rest.rest;
      if b == 0 then Raises(ZeroDivision)
      else OnStack(f, Push(if w.Quotient? then FloorQuotient(a, b) else FloorRemainder(a, b), s))
  }

  predicate Callable(w: ForthWord) { !w.Definition? && (w.Primitive? ==> Shared(w.prim)) }

  /** What an entry that is no colon definition does. */
  function Act(w: ForthWord, f: Forth): Answer
    requires Callable(w)
  {
    match w
    case Primitive(p) => Perform(p, f)
    case Placeholder => Fine(f)
    case NeedsArgument => Raises(MissingArgument)
    case _ => ApplyDivision(w, f)
  }

  /** `self.dictionary[word]()`, with `limit` nested calls left before Python gives up. */
  function RunName(v: Vocabulary, name: string, f: Forth, limit: nat): Answer
    requires Closed(v)
    decreases limit, 0, 0
  {
    if name !in v.entries then Raises(UnknownWord(name))
    else
      match v.entries[name]
      case Definition(n) => if limit == 0 then Raises(RecursionLimit) else RunWords(v, v.colonDefs[n], f, limit - 1)
      case w => Act(w, f)
  }

  /** The loop of `_execute_colon` over the words of a definition. */
  function RunWords(v: Vocabulary, words: seq<string>, f: Forth, limit: nat): Answer
    requires Closed(v)
    decreases limit, 1, |words|
  {
    if words == [] then Fine(f)
    else
      match RunName(v, words[0], f, limit)
      case Fine(f') => RunWords(v, words[1..], f', limit)
      case stopped => stopped
  }

  /** The words of `build_minimal_dictionary` that are not the kernel's, and `LIT`, which is another word there. */
  const OTHERS: map<string, ForthWord> :=
    map["/" := Quotient, "MOD" := Remainder, "LIT" := NeedsArgument, "DOCOL" := NeedsArgument,
        "IF" := Placeholder, "ELSE" := Placeholder, "THEN" := Placeholder, "BEGIN" := Placeholder,
        "UNTIL" := Placeholder, "WHILE" := Placeholder, "REPEAT" := Placeholder, "DO" := Placeholder,
        "LOOP" := Placeholder, "+LOOP" := Placeholder]

  lemma OthersCallable()
    ensures forall name :: name in OTHERS ==> Callable(OTHERS[name])
  {
  }

  /** `build_minimal_dictionary`: those, and the words the kernel has too. */
  function Minimal(prims: seq<Prim>): (entries: map<string, ForthWord>)
    ensures forall name :: name in entries ==> Callable(entries[name])
  {
    OthersCallable();
    if prims == [] then OTHERS
    else
      var entries := Minimal(prims[..|prims| - 1]);
      var p := prims[|prims| - 1];
      if Shared(p) then entries[WordName(p) := Primitive(p)] else entries
  }

  /** `add_colon_def`. */
  function WithColon(v: Vocabulary, name: string, code: seq<string>): (v': Vocabulary)
    requires Closed(v)
    ensures Closed(v')
  {
    Vocabulary(v.entries[name := Definition(name)], v.colonDefs[name := code])
  }

  // ---- how a definition runs, told from the outside ----

  /** Called as the `j`-th word, `word` takes `f` to `f'`. */
  ghost predicate Calls(v: Vocabulary, word: string, f: Forth, f': Forth, limit: nat)
    requires Closed(v)
    decreases limit, 0, 0
  {
    && word in v.entries
    && match v.entries[word]
       case Definition(n) => limit > 0 && Completes(v, v.colonDefs[n], f, f', limit - 1)
       case w => Act(w, f) == Fine(f')
  }

  /** The words run through, one after the other, from `f` to `f'`. */
  ghost predicate Completes(v: Vocabulary, words: seq<string>, f: Forth, f': Forth, limit: nat)
    requires Closed(v)
    decreases limit, 1, |words|
  {
    if words == [] then f' == f
    else
      var n := |words| - 1;
      exists g: Forth :: Completes(v, words[..n], f, g, limit) && Calls(v, words[n], g, f', limit)
  }

  /** Called from `f`, `word` raises `e`: it is in no entry, or its primitive raises, or its definition
      does, or Python allows no deeper call. */
  ghost predicate Fails(v: Vocabulary, word: string, f: Forth, e: ForthError, limit: nat)
    requires Closed(v)
    decreases limit, 0, 0
  {
    if word !in v.entries then e == UnknownWord(word)
    else
      match v.entries[word]
      case Definition(n) => if limit == 0 then e == RecursionLimit else Aborts(v, v.colonDefs[n], f, e, limit - 1)
      case w => Act(w, f) == Raises(e)
  }

  /** The words before the `j`-th run through, and that one raises `e`. */
  ghost predicate AbortsAt(v: Vocabulary, words: seq<string>, j: nat, f: Forth, e: ForthError, limit: nat)
    requires Closed(v) && j < |words|
    decreases limit, 1, |words|, 0
  {
    exists g: Forth :: Completes(v, words[..j], f, g, limit) && Fails(v, words[j], g, e, limit)
  }

  ghost predicate Aborts(v: Vocabulary, words: seq<string>, f: Forth, e: ForthError, limit: nat)
    requires Closed(v)
    decreases limit, 1, |words|, 1
  {
    exists j :: 0 <= j < |words| && AbortsAt(v, words, j, f, e, limit)
  }

  /** The loop stops at the first word that does not run through. */
  lemma {:induction false} RunsOn(v: Vocabulary, words: seq<string>, more: seq<string>, f: Forth, limit: nat)
    requires Closed(v)
    ensures RunWords(v, words + more, f, limit)
         == if RunWords(v, words, f, limit).Fine? then RunWords(v, more, RunWords(v, words, f, limit).f, limit)
            else RunWords(v, words, f, limit)
    decreases |words|
  {
    hide RunName;
    if words == [] {
      assert words + more == more;
    } else {
      assert (words + more)[1..] == words[1..] + more;
      if RunName(v, words[0], f, limit).Fine? {
        RunsOn(v, words[1..], more, RunName(v, words[0], f, limit).f, limit);
      }
    }
  }

  lemma LastRuns(v: Vocabulary, words: seq<string>, f: Forth, limit: nat)
    requires Closed(v) && words != []
    ensures var n := |words| - 1; var before := RunWords(v, words[..n], f, limit);
      RunWords(v, words, f, limit) == if before.Fine? then RunName(v, words[n], before.f, limit) else before
  {
    hide RunName;
    var n := |words| - 1;
    assert words == words[..n] + [words[n]];
    RunsOn(v, words[..n], [words[n]], f, limit);
    var before := RunWords(v, words[..n], f, limit);
    if before.Fine? {
      assert [words[n]][1..] == [];
    }
  }

  lemma {:induction false} CallsIs(v: Vocabulary, word: string, f: Forth, f': Forth, limit: nat)
    requires Closed(v)
    ensures Calls(v, word, f, f', limit) <==> RunName(v, word, f, limit) == Fine(f')
    decreases limit, 0, 0
  {
    hide Act, RunWords, Completes;
    if word in v.entries && v.entries[word].Definition? && limit > 0 {
      CompletesIs(v, v.colonDefs[v.entries[word].name], f, f', limit - 1);
    }
  }

  /** Running through is what `RunWords` computes when it raises nothing. */
  lemma {:induction false} CompletesIs(v: Vocabulary, words: seq<string>, f: Forth, f': Forth, limit: nat)
    requires Closed(v)
    ensures Completes(v, words, f, f', limit) <==> RunWords(v, words, f, limit) == Fine(f')
    decreases limit, 1, |words|
  {
    hide RunName, Calls;
    if words != [] {
      var n := |words| - 1;
      LastRuns(v, words, f, limit);
      forall g: Forth
        ensures Completes(v, words[..n], f, g, limit) <==> RunWords(v, words[..n], f, limit) == Fine(g)
        ensures Calls(v, words[n], g, f', limit) <==> RunName(v, words[n], g, limit) == Fine(f')
      {
        CompletesIs(v, words[..n], f, g, limit);
        CallsIs(v, words[n], g, f', limit);
      }
      if RunWords(v, words, f, limit) == Fine(f') {
        var g := RunWords(v, words[..n], f, limit).f;
        assert Completes(v, words[..n], f, g, limit) && Calls(v, words[n], g, f', limit);
      }
    }
  }

  lemma {:induction false} FailsIs(v: Vocabulary, word: string, f: Forth, e: ForthError, limit: nat)
    requires Closed(v)
    ensures Fails(v, word, f, e, limit) <==> RunName(v, word, f, limit) == Raises(e)
    decreases limit, 0, 0
  {
    hide Act, RunWords, Aborts;
    if word in v.entries && v.entries[word].Definition? && limit > 0 {
      AbortsIs(v, v.colonDefs[v.entries[word].name], f, e, limit - 1);
    }
  }

  /** And an error is the error of the first word that raises, reached with the words before it run through. */
  lemma {:induction false} AbortsIs(v: Vocabulary, words: seq<string>, f: Forth, e: ForthError, limit: nat)
    requires Closed(v)
    ensures Aborts(v, words, f, e, limit) <==> RunWords(v, words, f, limit) == Raises(e)
    decreases limit, 1, |words|
  {
    hide RunName, Fails, Completes, RunWords;
    forall j | 0 <= j < |words|
      ensures AbortsAt(v, words, j, f, e, limit) ==> RunWords(v, words, f, limit) == Raises(e)
    {
      if AbortsAt(v, words, j, f, e, limit) {
        var g: Forth :| Completes(v, words[..j], f, g, limit) && Fails(v, words[j], g, e, limit);
        CompletesIs(v, words[..j], f, g, limit);
        FailsIs(v, words[j], g, e, limit);
        StopsThere(v, words, j, f, limit);
      }
    }
    if RunWords(v, words, f, limit) == Raises(e) {
      FirstFailure(v, words, f, e, limit);
    }
  }

  /** A word that raises ends the loop, whatever follows it. */
  lemma StopsThere(v: Vocabulary, words: seq<string>, j: nat, f: Forth, limit: nat)
    requires Closed(v) && j < |words| && RunWords(v, words[..j], f, limit).Fine?
    requires !RunName(v, words[j], RunWords(v, words[..j], f, limit).f, limit).Fine?
    ensures RunWords(v, words, f, limit) == RunName(v, words[j], RunWords(v, words[..j], f, limit).f, limit)
  {
    hide RunName;
    assert words == words[..j] + words[j..];
    RunsOn(v, words[..j], words[j..], f, limit);
  }

  lemma {:induction false} FirstFailure(v: Vocabulary, words: seq<string>, f: Forth, e: ForthError, limit: nat)
    requires Closed(v) && RunWords(v, words, f, limit) == Raises(e)
    ensures Aborts(v, words, f, e, limit)
    decreases limit, 0, |words|
  {
    hide RunName, Fails, Completes;
    var n := |words| - 1;
    LastRuns(v, words, f, limit);
    var before := RunWords(v, words[..n], f, limit);
    if before.Fine? {
      CompletesIs(v, words[..n], f, before.f, limit);
      FailsIs(v, words[n], before.f, e, limit);
      assert AbortsAt(v, words, n, f, e, limit);
    } else {
      FirstFailure(v, words[..n], f, e, limit);
      var j :| 0 <= j < n && AbortsAt(v, words[..n], j, f, e, limit);
      assert words[..n][..j] == words[..j];
      assert AbortsAt(v, words, j, f, e, limit);
    }
  }
}
