/** Three small boot threads followed from `START` to their ends: one way to halt, one to raise, and one
    that does either or neither, as its operand says. */
module SmallPrograms {
  import opened Wrappers
  import opened Isa
  import opened Cpu
  import opened Layout
  import opened Stacks
  import opened Assembler
  import opened AbstractMachine
  import opened KernelSource
  import opened KernelLayout
  import opened Words
  import opened Primitives
  import opened Troubles
  import opened Evaluation
  import opened Building
  import opened Correctness
  import opened Separation
  import opened EndToEnd
  import opened KernelBuilder
  import opened Images
  import opened NameTable
  import opened KernelWords
  import opened RoundTrip
  import Bits
  import Agreement
  import KernelAssembles
  import M = Machine

  /** `LIT a LIT b * BYE`. */
  function Multiplication(a: int, b: int): seq<ThreadItem> {
    [WordReference("LIT"), LiteralCell(a), WordReference("LIT"), LiteralCell(b), WordReference("*"), WordReference("BYE")]
  }

  /** What evaluation makes of it. */
  lemma MultiplicationEvaluates(p: Program, d: Data, depth: nat, a: int, b: int)
    requires Matched(p) && Depth(d.ds) + 2 <= DATA_STACK_SIZE
    requires Unshadowed(p.words, "LIT", LIT) && Unshadowed(p.words, "*", MUL) && Unshadowed(p.words, "BYE", BYE)
    ensures EvalThread(p, |p.words|, Multiplication(a, b), 0, d, depth)
         == if b >= 0 then Stopped(d.(ds := Push(a * b, d.ds)), 31 + 6 * b, false) else Endless
  {
    hide Unshadowed, EvalThread;
    var items := Multiplication(a, b);
    var d1 := d.(ds := Push(a, d.ds));
    var d2 := d.(ds := Push(b, d1.ds));
    LiteralEvaluates(p, items, 0, d, depth, a);
    LiteralEvaluates(p, items, 2, d1, depth, b);
    CodeWordEvaluates(p, items, 4, d2, depth, MUL);
    MulMeans(p.context, d, a, b, depth);
    if b >= 0 {
      CodeWordEvaluates(p, items, 5, d.(ds := Push(a * b, d.ds)), depth, BYE);
    }
  }

  lemma MulMeans(c: Context, d: Data, a: int, b: int, depth: nat)
    ensures var d2 := d.(ds := Push(b, Push(a, d.ds)));
      && (b >= 0 ==> Meaning(c, MUL, d2, depth) == Some(d.(ds := Push(a * b, d.ds))))
      && (b >= 0 ==> RoutineCost(c, MUL, d2) == 6 * b + 6)
      && (b < 0 ==> Meaning(c, MUL, d2, depth).None? && Troubled(c, MUL, d2, depth) == Endless)
  {
    hide ShuffleMeaning, ReturnMeaning, DeviceMeaning, FetchMeaning, StoreMeaning, NumberMeaning, WordMeaning, FindMeaning,
         RunsDry, Counted, TextCost;
    assert Depth(Push(b, Push(a, d.ds))) == 2 + Depth(d.ds);
  }

  /** The booted machine multiplies by every `b` that is not negative, in exactly 34 + 6b steps; by a
      negative one it never stops, whatever the budget of `run`. */
  lemma KernelMultiplies(asm: Assembly, words: seq<WordSpec>, m: M.State, a: int, b: int)
    requires KernelLoaded(asm) && Accepted(words, Multiplication(a, b)) && Booted(words, m)
    requires ImageIn(asm, words, Multiplication(a, b), m.mem[..DICTIONARY_SIZE])
    requires Unshadowed(words, "LIT", LIT) && Unshadowed(words, "*", MUL) && Unshadowed(words, "BYE", BYE)
    requires Depth(DataStack(m)) + 2 <= DATA_STACK_SIZE
    ensures b >= 0 ==> RunNeeds(asm.program, m, 34 + 6 * b)
    ensures b >= 0 ==> DataStack(M.Steps(asm.program, m, 34 + 6 * b).value) == Push(a * b, DataStack(m))
    ensures b < 0 ==> NeverStops(asm.program, m)
  {
    hide KernelLoaded, Accepted, ImageIn, NeverStops, RunNeeds, EvalThread, Multiplication, Unshadowed, M.Steps, M.Run;
    MultiplicationEvaluates(ImageProgram(asm, words, Multiplication(a, b)), View(m).d.(rs := Empty),
                            Depth(ReturnStack(m)), a, b);
    CompilerCorrect(asm, words, Multiplication(a, b), m);
  }

  const DROP_THREAD := [WordReference("DROP"), WordReference("BYE")]

  /** `DROP BYE` on an empty data stack: seven steps, then the underflow. */
  lemma DropUnderflows(asm: Assembly, words: seq<WordSpec>, m: M.State)
    requires KernelLoaded(asm) && Accepted(words, DROP_THREAD) && Booted(words, m)
    requires ImageIn(asm, words, DROP_THREAD, m.mem[..DICTIONARY_SIZE])
    requires Unshadowed(words, "DROP", DROP) && DataStack(m).Empty?
    ensures RaisesAs(asm.program, m, 7, EmptyData)
  {
    hide KernelLoaded, Accepted, ImageIn, RaisesAs, EvalThread, Unshadowed;
    var p := ImageProgram(asm, words, DROP_THREAD);
    CodeWordEvaluates(p, DROP_THREAD, 0, View(m).d.(rs := Empty), Depth(ReturnStack(m)), DROP);
    CompilerCorrect(asm, words, DROP_THREAD, m);
  }

  const BYE_THREAD := [WordReference("BYE")]

  /** The smallest image and boot thread there is: the kernel's own words and `BYE`. It meets every
      hypothesis of the theorems about booted images, and halts after eight steps. */
  lemma SmallestImage(input: seq<int>) returns (m: M.State)
    ensures KernelLoaded(Kernel()) && Accepted(AllWords([]), BYE_THREAD) && Booted(AllWords([]), m)
    ensures ImageIn(Kernel(), AllWords([]), BYE_THREAD, m.mem[..DICTIONARY_SIZE]) && m.input == input
    ensures RunNeeds(Kernel().program, m, 8)
  {
    hide Accepted, ImageIn, AllWords, RunNeeds, EvalThread, Assemble, WordName, Lookup;
    var words := AllWords([]);
    Agreement.ExitAndBye();
    KernelWordsOnly();
    NoColons();
    Agreement.KernelWordBound([], 2, |words|);
    assert words[..|words|] == words;
    KernelAccepted(BYE_THREAD);
    m := BootedOn(words, BYE_THREAD, input);
    var p := ImageProgram(Kernel(), words, BYE_THREAD);
    CodeWordEvaluates(p, BYE_THREAD, 0, View(m).d.(rs := Empty), Depth(ReturnStack(m)), BYE);
    CompilerCorrect(Kernel(), words, BYE_THREAD, m);
  }

  // ---- on the kernel's own image, and with definitions that take none of its names ----

  /** The definitions a program may add without taking a name of the kernel or using one twice. */
  ghost predicate Adds(colon: seq<WordSpec>) {
    (forall w :: w in colon ==> w.ColonWord?) && Agreement.Unambiguous(AllWords(colon))
  }

  /** `LIT a LIT b * BYE` after any such definitions. */
  lemma ProductComputed(colon: seq<WordSpec>, m: M.State, a: int, b: int)
    requires Adds(colon) && Accepted(AllWords(colon), Multiplication(a, b)) && Booted(AllWords(colon), m)
    requires ImageIn(Kernel(), AllWords(colon), Multiplication(a, b), m.mem[..DICTIONARY_SIZE])
    requires Depth(DataStack(m)) + 2 <= DATA_STACK_SIZE
    ensures b >= 0 ==> RunNeeds(Kernel().program, m, 34 + 6 * b)
    ensures b >= 0 ==> DataStack(M.Steps(Kernel().program, m, 34 + 6 * b).value) == Push(a * b, DataStack(m))
    ensures b < 0 ==> NeverStops(Kernel().program, m)
  {
    hide Names, AllWords, Accepted, ImageIn, RunNeeds, NeverStops, Multiplication, Unshadowed, Agreement.Unambiguous, Assemble,
         M.Steps;
    ControlNames();
    ArithmeticNames();
    NameBound(colon, "LIT", LIT);
    NameBound(colon, "*", MUL);
    NameBound(colon, "BYE", BYE);
    KernelAssembles.KernelAssembled();
    KernelMultiplies(Kernel(), AllWords(colon), m, a, b);
  }

  /** `DROP BYE` after any such definitions, on an empty data stack. */
  lemma DropRefused(colon: seq<WordSpec>, m: M.State)
    requires Adds(colon) && Accepted(AllWords(colon), DROP_THREAD) && Booted(AllWords(colon), m)
    requires ImageIn(Kernel(), AllWords(colon), DROP_THREAD, m.mem[..DICTIONARY_SIZE]) && DataStack(m).Empty?
    ensures RaisesAs(Kernel().program, m, 7, EmptyData)
  {
    hide Names, AllWords, Accepted, ImageIn, RaisesAs, Unshadowed, Agreement.Unambiguous, Assemble, DROP_THREAD;
    StackNames();
    NameBound(colon, "DROP", DROP);
    KernelAssembles.KernelAssembled();
    DropUnderflows(Kernel(), AllWords(colon), m);
  }

  /** `WORD NUMBER BYE` after any such definitions. */
  lemma NumberRead(colon: seq<WordSpec>, m: M.State, n: int, k: nat, rest: seq<int>)
    requires Adds(colon) && Accepted(AllWords(colon), READ_THREAD) && Booted(AllWords(colon), m)
    requires ImageIn(Kernel(), AllWords(colon), READ_THREAD, m.mem[..DICTIONARY_SIZE])
    requires ImageTop(AllWords(colon), READ_THREAD) <= WORD_BUFFER_BASE
    requires DataStack(m).Push? && Separator(DataStack(m).top) && Depth(DataStack(m)) < DATA_STACK_SIZE
    requires |Decimal(n)| < WORD_BUFFER_SIZE && m.input == Fed(DataStack(m).top, k, Decimal(n), rest)
    ensures var o := BootOutcome(Kernel(), AllWords(colon), READ_THREAD, m);
      && o.Stopped? && o.d.ds == Push(1, Push(n, DataStack(m).rest)) && o.d.input == rest
      && HaltsAs(Kernel().program, m, 3 + o.cost, o.d, false, ImageTop(AllWords(colon), READ_THREAD))
  {
    hide Names, AllWords, Accepted, ImageIn, HaltsAs, Unshadowed, Agreement.Unambiguous, Assemble, READ_THREAD, BootOutcome,
         ImageTop, Decimal, Fed;
    ControlNames();
    TextNames();
    NameBound(colon, "WORD", WORD);
    NameBound(colon, "NUMBER", NUMBER);
    NameBound(colon, "BYE", BYE);
    KernelAssembles.KernelAssembled();
    KernelReads(Kernel(), AllWords(colon), m, n, k, rest);
  }

  /** `LIT a LIT b name BYE`. */
  function Calculation(a: int, b: int, name: string): seq<ThreadItem> {
    [WordReference("LIT"), LiteralCell(a), WordReference("LIT"), LiteralCell(b), WordReference(name), WordReference("BYE")]
  }

  lemma CalculationEvaluates(p: Program, d: Data, depth: nat, a: int, b: int, name: string, prim: Prim, v: int)
    requires Matched(p) && Depth(d.ds) + 2 <= DATA_STACK_SIZE && !(prim in {LIT, EXIT, BYE})
    requires Unshadowed(p.words, "LIT", LIT) && Unshadowed(p.words, name, prim) && Unshadowed(p.words, "BYE", BYE)
    requires Binary(prim, a, b) == Some(v) && Unary(prim, b).None?
    ensures var o := EvalThread(p, |p.words|, Calculation(a, b, name), 0, d, depth);
      o.Stopped? && o.d == d.(ds := Push(v, d.ds)) && !o.nested
  {
    hide Unshadowed, EvalThread, Binary, Unary, RoutineCost, Lookup;
    var items := Calculation(a, b, name);
    var d1 := d.(ds := Push(a, d.ds));
    var d2 := d.(ds := Push(b, d1.ds));
    ComputedMeans(p.context, prim, d2, depth, a, b, d.ds, v);
    hide Meaning;
    LiteralEvaluates(p, items, 0, d, depth, a);
    LiteralEvaluates(p, items, 2, d1, depth, b);
    CodeWordEvaluates(p, items, 4, d2, depth, prim);
    CodeWordEvaluates(p, items, 5, d.(ds := Push(v, d.ds)), depth, BYE);
  }

  lemma CalculationSoFar(m: M.State, a: int, b: int, name: string, prim: Prim, v: int)
    requires M.Sound(m) && DataStack(m).Empty? && !(prim in {LIT, EXIT, BYE})
    requires Unshadowed(AllWords([]), "LIT", LIT) && Unshadowed(AllWords([]), name, prim)
    requires Unshadowed(AllWords([]), "BYE", BYE) && Binary(prim, a, b) == Some(v) && Unary(prim, b).None?
    ensures var o := BootOutcome(Kernel(), AllWords([]), Calculation(a, b, name), m);
      o.Stopped? && o.d == Start(m).(ds := Push(v, Empty)) && !o.nested
  {
    hide AllWords, EvalThread, Unshadowed, Kernel, EntriesOf, Binary, Unary, Calculation;
    StartIs(m);
    CalculationEvaluates(ProgramFor(Calculation(a, b, name)), Start(m), Depth(ReturnStack(m)), a, b, name, prim, v);
  }

  /** The value of a calculation on two integers, by the word's name. */
  function Calculated(a: int, b: int, name: string): Option<int> {
    if name == "+" then Some(a + b)
    else if name == "-" then Some(a - b)
    else if name == "*" then (if b >= 0 then Some(a * b) else None)
    else if name == "AND" then Some(Bits.And(a, b))
    else if name == "OR" then Some(Bits.Or(a, b))
    else if name == "=" then Some(if a == b then -1 else 0)
    else if name == "<>" then Some(if a != b then -1 else 0)
    else if name == "<" then Some(if a < b then -1 else 0)
    else if name == ">" then Some(if a > b then -1 else 0)
    else None
  }

  lemma CalculatedPrim(a: int, b: int, name: string) returns (prim: Prim)
    requires Calculated(a, b, name).Some?
    ensures Names(name, prim) && Binary(prim, a, b) == Calculated(a, b, name) && Unary(prim, b).None?
    ensures !(prim in {LIT, EXIT, BYE})
  {
    hide Names, Bits.And, Bits.Or;
    ArithmeticNames();
    LogicNames();
    ComparisonNames();
    prim := if name == "+" then PLUS else if name == "-" then MINUS else if name == "*" then MUL
            else if name == "AND" then BITAND else if name == "OR" then BITOR else if name == "=" then EQUALS
            else if name == "<>" then NOTEQUALS else if name == "<" then LESSTHAN else GREATERTHAN;
  }

  /** A machine fresh from `boot` calculates, and what was on neither stack stays as it was. */
  lemma CalculationLeaves(m: M.State, a: int, b: int, name: string, input: seq<int>)
    requires Fresh(AllWords([]), Calculation(a, b, name), input, m) && Calculated(a, b, name).Some?
    ensures Accepted(AllWords([]), Calculation(a, b, name))
    ensures LeavesStack(m, Push(Calculated(a, b, name).value, Empty))
  {
    hide Names, AllWords, Accepted, ImageIn, Unshadowed, HaltsLeaving, Kernel, BootOutcome, Calculated, Binary, Unary;
    var prim := CalculatedPrim(a, b, name);
    var boot := Calculation(a, b, name);
    ControlNames();
    ThreadAccepted(boot);
    KernelBound("LIT", LIT);
    KernelBound(name, prim);
    KernelBound("BYE", BYE);
    StartIs(m);
    CalculationSoFar(m, a, b, name, prim, Calculated(a, b, name).value);
    Leaving(boot, m, Start(m).(ds := Push(Calculated(a, b, name).value, Empty)));
  }

  /** There is such a machine for every two integers, every one of those names and every input. */
  lemma CalculationBoots(a: int, b: int, name: string, input: seq<int>) returns (m: M.State)
    requires Calculated(a, b, name).Some?
    ensures Fresh(AllWords([]), Calculation(a, b, name), input, m)
  {
    hide Names, AllWords, Accepted, Fresh, Kernel, Calculated, Binary, Unary;
    var prim := CalculatedPrim(a, b, name);
    ControlNames();
    ThreadAccepted(Calculation(a, b, name));
    m := BootedOn(AllWords([]), Calculation(a, b, name), input);
  }

  // ---- a definition that does nothing ----

  const NOP_NAME := "NOP"

  /** `: NOP ;`. */
  const NOP := [ColonWord(NOP_NAME, [], false)]

  lemma NopIsNew(p: Prim)
    ensures WordName(p) != NOP_NAME
  {
  }

  /** The image of `NOP`: the kernel's words, then one that takes no name of theirs. */
  lemma NopImage()
    ensures |AllWords(NOP)| == 40 && AllWords(NOP)[39] == NOP[0]
    ensures forall k :: 0 <= k < 39 ==> AllWords(NOP)[k].CodeWord? && AllWords(NOP)[k].name != NOP_NAME
    ensures Agreement.Unambiguous(AllWords(NOP)) && Lookup(AllWords(NOP), NOP_NAME) == Some(39)
  {
    hide WordName, AllWords;
    var words := AllWords(NOP);
    KernelWordsOnly();
    Agreement.AllWordsSize(NOP);
    AllWordsAt(NOP, 39);
    forall k | 0 <= k < 39
      ensures words[k].CodeWord? && words[k].name != NOP_NAME
    {
      AllWordsAt(NOP, k);
      NopIsNew(PRIMITIVES[k]);
    }
    assert forall i, j :: 0 <= i < j < |words| ==> Agreement.Apart(words, i, j);
    Agreement.LookupIs(words, 39);
  }

  lemma {:induction false} SmallWords(words: seq<WordSpec>)
    requires forall w :: w in words ==> |w.name| <= 6 && (w.ColonWord? ==> w.words == [])
    ensures ImageEnd(words) <= DICTIONARY_BASE + 12 * |words|
  {
    if words != [] {
      var n := |words| - 1;
      assert words[n] in words;
      assert forall w :: w in words[..n] ==> w in words;
      SmallWords(words[..n]);
    }
  }

  lemma NopAccepted()
    ensures Accepted(AllWords(NOP), Agreement.CallOf(NOP_NAME))
  {
    hide WordName, AllWords, Lookup, Agreement.Unambiguous;
    var words := AllWords(NOP);
    NopImage();
    Agreement.ExitAndBye();
    KernelWordsOnly();
    Agreement.KernelWordBound(NOP, 1, 39);
    Agreement.KernelWordBound(NOP, 2, 40);
    assert words[..40] == words;
    forall w | w in words
      ensures |w.name| <= 6 && (w.ColonWord? ==> w.words == [])
    {
      var k :| 0 <= k < |words| && words[k] == w;
      AllWordsAt(NOP, k);
      if k < 39 {
        ShortName(PRIMITIVES[k]);
      }
    }
    SmallWords(words);
    assert forall item :: item in ItemsOf([]) ==> item == WordReference(EXIT_WORD);
    assert Resolvable(words[..39], words[39]);
    assert forall k :: 0 <= k < 40 ==> Resolvable(words[..k], words[k]);
  }

  lemma NopEvaluates(p: Program, d: Data, depth: nat)
    requires Matched(p) && p.words == AllWords(NOP) && depth < RETURN_STACK_SIZE && d.rs.Empty?
    ensures EvalWord(p, 39, d, depth) == Finished(d, 15)
  {
    hide WordName, AllWords, Lookup, Agreement.Unambiguous;
    NopImage();
    Agreement.ExitAndBye();
    KernelWordsOnly();
    Agreement.KernelWordBound(NOP, 1, 39);
    assert EvalThread(p, 39, ItemsOf([]), 0, d, depth + 1) == Finished(d, 6);
    assert d.(rs := Empty) == d;
  }

  lemma NopIsPlain()
    ensures Agreement.Plain(AllWords(NOP), false) && Agreement.Balanced(AllWords(NOP))
  {
    hide AllWords, WordName, Agreement.PlainAt, Lookup, Agreement.Unambiguous;
    NopImage();
  }

  lemma NopRuns(m: M.State)
    requires KernelLoaded(Kernel()) && Booted(AllWords(NOP), m) && ReturnStack(m).Empty?
    requires ImageIn(Kernel(), AllWords(NOP), Agreement.CallOf(NOP_NAME), m.mem[..DICTIONARY_SIZE])
    ensures M.Run(Kernel().program, m, 23).Ok?
  {
    hide Accepted, ImageIn, AllWords, EvalThread, EvalWord, Assemble, WordName, Lookup, Agreement.CallOf, M.Run,
         Agreement.Unambiguous, Agreement.Plain;
    var words := AllWords(NOP);
    NopImage();
    NopAccepted();
    NopIsPlain();
    var p := ImageProgram(Kernel(), words, Agreement.CallOf(NOP_NAME));
    var d := View(m).d.(rs := Empty);
    Agreement.CallEvaluates(p, NOP, NOP_NAME, d, 0, false);
    NopEvaluates(p, d, 0);
    CompilerCorrect(Kernel(), words, Agreement.CallOf(NOP_NAME), m);
  }

  /** An image, a name and a machine that meet every hypothesis of the agreement of the two
      implementations. */
  lemma NopCompares(input: seq<int>) returns (m: M.State)
    ensures Agreement.Comparison(Kernel(), NOP, NOP_NAME, m, false) && Agreement.Balanced(AllWords(NOP))
    ensures M.Run(Kernel().program, m, 23).Ok?
  {
    hide Accepted, ImageIn, AllWords, Assemble, WordName, Lookup, Agreement.CallOf, M.Run,
         Agreement.Unambiguous, Agreement.Plain, Agreement.Balanced;
    NopImage();
    NopAccepted();
    NopIsPlain();
    m := BootedOn(AllWords(NOP), Agreement.CallOf(NOP_NAME), input);
    NopRuns(m);
  }
}
