/** The agreement of the two implementations for programs as they are written, and one such program
    computed by both. */
module WrittenPrograms {
  import opened Wrappers
  import opened Isa
  import opened Cpu
  import opened Layout
  import opened Stacks
  import opened Assembler
  import opened AbstractMachine
  import opened KernelSource
  import opened KernelLayout
  import opened Words
  import opened Primitives
  import opened Evaluation
  import opened Building
  import opened Correctness
  import opened Separation
  import opened EndToEnd
  import opened KernelBuilder
  import opened Images
  import opened ForthWords
  import opened Agreement
  import opened AgreementErrors
  import opened Definitions
  import opened ForthNames
  import opened NameTable
  import KernelAssembles
  import KernelWords
  import M = Machine

  /** New names, written in plain names and names defined before, each taking back from the return stack
      what it puts there. */
  predicate WellWritten(colon: seq<WordSpec>) {
    && AllColon(colon) && NewNames(colon) && PlainUses(colon, false)
    && forall i :: 0 <= i < |colon| && colon[i].ColonWord? ==> TakesBack(colon[i].words, 0)
  }

  /** The machine is booted on the kernel with these definitions, to call the `i`-th and stop. */
  ghost predicate Calling(colon: seq<WordSpec>, i: nat, m: M.State)
    requires i < |colon|
  {
    && Booted(AllWords(colon), m)
    && ImageTop(AllWords(colon), CallOf(colon[i].name)) <= DICTIONARY_TOP
    && ImageIn(Kernel(), AllWords(colon), CallOf(colon[i].name), m.mem[..DICTIONARY_SIZE])
  }

  /** A definition's name is bound to it in the finished image. */
  lemma NameIsBound(colon: seq<WordSpec>, i: nat)
    requires AllColon(colon) && NewNames(colon) && i < |colon|
    ensures |AllWords(colon)| == 39 + |colon| && AllWords(colon)[39 + i] == colon[i]
    ensures Lookup(AllWords(colon), colon[i].name) == Some(39 + i)
  {
    hide AllWords, KERNEL_NAMES, Names, Lookup;
    var words := AllWords(colon);
    WordAt(colon, 0) by { Agreement.AllWordsSize(colon); Rows(0); }
    WordAt(colon, 39 + i);
    var r := Lookup(words, colon[i].name);
    if r.Some? {
      WordAt(colon, r.value);
    }
  }

  lemma WrittenComparison(colon: seq<WordSpec>, i: nat, m: M.State)
    requires WellWritten(colon) && i < |colon| && Calling(colon, i, m)
    ensures Comparison(Kernel(), colon, colon[i].name, m, false) && Balanced(AllWords(colon))
    ensures Lookup(AllWords(colon), colon[i].name) == Some(39 + i) && AllWords(colon)[39 + i] == colon[i]
  {
    hide AllWords, KERNEL_NAMES, Names, Lookup, NewNames, PlainUses, TakesBack, Unambiguous, Plain, Balanced, ImageIn, Booted,
         Assemble, AllResolvable;
    NameIsBound(colon, i);
    UnambiguousIs(colon);
    PlainResolves(colon, false);
    PlainIs(colon, false);
    BalancedIs(colon);
    KernelAssembles.KernelAssembled();
    CallResolves(colon, i);
  }

  lemma CallResolves(colon: seq<WordSpec>, i: nat)
    requires AllColon(colon) && NewNames(colon) && i < |colon|
    ensures BootResolvable(AllWords(colon), CallOf(colon[i].name))
  {
    hide AllWords, KERNEL_NAMES, Names, Lookup, NewNames;
    NameIsBound(colon, i);
    UnambiguousIs(colon);
    ControlNames();
    NameBound(colon, "BYE", BYE);
  }

  /** For every well-written program and every definition of it: when the machine's run of a call returns,
      and `_execute_colon` does not raise, both leave the same data stack and the service its return stack
      as it was; and it does not raise if its return stack is no fuller and Python allows a nested call for
      each word. */
  lemma WrittenAgree(colon: seq<WordSpec>, i: nat, m: M.State, maxSteps: nat, f: Forth, limit: nat)
    requires WellWritten(colon) && i < |colon| && Calling(colon, i, m) && f.d.ds == DataStack(m)
    requires M.Run(Kernel().program, m, maxSteps).Ok?
    ensures var end := M.Run(Kernel().program, m, maxSteps).value;
      var answer := RunWords(VocabularyOf(colon), colon[i].words, f, limit);
      && (answer.Fine? ==> M.Sound(end) && answer.f.d.ds == DataStack(end) && answer.f.d.rs == f.d.rs)
      && (Depth(f.d.rs) <= Depth(ReturnStack(m)) && 39 + |colon| <= limit ==> answer.Fine?)
  {
    hide AllWords, WellWritten, Calling, Comparison, Balanced, Lookup, M.Run, VocabularyOf, RunWords, Kernel;
    WrittenComparison(colon, i, m);
    Agreement.AllWordsSize(colon);
    KernelWordsOnly();
    ImplementationsAgree(Kernel(), colon, colon[i].name, m, maxSteps, f, limit);
  }

  /** And when the machine raises an error of the data stack, so does `_execute_colon`. */
  lemma WrittenFail(colon: seq<WordSpec>, i: nat, m: M.State, n: nat, fault: Fault, f: Forth, limit: nat)
    requires WellWritten(colon) && i < |colon| && Calling(colon, i, m) && f.d.ds == DataStack(m)
    requires RaisesAs(Kernel().program, m, n, fault) && (fault == EmptyData || fault == FullData)
    requires Depth(f.d.rs) <= Depth(ReturnStack(m)) && 39 + |colon| <= limit
    ensures RunWords(VocabularyOf(colon), colon[i].words, f, limit)
         == Raises(ForthError.Machine(if fault == EmptyData then StackUnderflow else StackOverflow))
  {
    hide AllWords, WellWritten, Calling, Comparison, Balanced, Lookup, VocabularyOf, RunWords, Kernel, RaisesAs;
    WrittenComparison(colon, i, m);
    Agreement.AllWordsSize(colon);
    KernelWordsOnly();
    ErrorsAgree(Kernel(), colon, colon[i].name, m, n, fault, f, limit);
  }

  // ---- a program that squares ----

  /** `: SQ DUP * ;`. */
  const SQUARE := [ColonWord("SQ", ["DUP", "*"], false)]

  lemma SquareIsNew()
    ensures "SQ" !in KERNEL_NAMES
  {
  }

  lemma SquareWritten()
    ensures WellWritten(SQUARE)
  {
    hide KERNEL_NAMES;
    SquareIsNew();
    assert PlainName("DUP", false) && PlainName("*", false);
    var code := ["DUP", "*"];
    assert code[1..] == ["*"] && code[1..][1..] == [];
  }

  /** The image, a machine booted on it to square, and `a` on its data stack. */
  lemma SquareBooted(a: int, input: seq<int>) returns (m: M.State)
    ensures Calling(SQUARE, 0, m) && m.input == input && m.output == []
    ensures DataStack(m) == Push(a, Empty) && ReturnStack(m) == Empty
  {
    hide AllWords, AllResolvable, BootResolvable, ImageIn, ImageEnd, NewNames, KERNEL_NAMES;
    SquareWritten();
    PlainResolves(SQUARE, false);
    CallResolves(SQUARE, 0);
    SquareFits();
    var fresh_ := BootedOn(AllWords(SQUARE), CallOf("SQ"), input);
    var top := DATA_STACK_BASE - 1;
    m := fresh_.(mem := fresh_.mem[top := a], dsp := top);
    assert m.mem[..DICTIONARY_SIZE] == fresh_.mem[..DICTIONARY_SIZE];
    StackAtFrame(fresh_.mem, m.mem, m.rsp, RETURN_STACK_BASE);
    assert StackAt(m.mem, top + 1, DATA_STACK_BASE) == Empty;
  }

  lemma SquareFits()
    ensures ImageTop(AllWords(SQUARE), CallOf("SQ")) <= DICTIONARY_TOP
  {
    hide AllWords, NewNames, KERNEL_NAMES, WordName;
    var words := AllWords(SQUARE);
    KernelWordsOnly();
    Agreement.AllWordsSize(SQUARE);
    forall w | w in words[..39]
      ensures w.CodeWord? && |w.name| <= 6
    {
      var k :| 0 <= k < 39 && words[k] == w;
      AllWordsAt(SQUARE, k);
      ShortName(PRIMITIVES[k]);
    }
    AllWordsAt(SQUARE, 39);
    EndAtMost(words[..39]);
  }

  lemma SquareStep(p: Program, items: seq<ThreadItem>, j: nat, limit: nat, d: Data, depth: nat, prim: Prim, d': Data)
    requires Matched(p) && j < |items| && limit <= |p.words| && items[j].WordReference?
    requires var r := Lookup(p.words[..limit], items[j].name);
      r.Some? && p.words[r.value].CodeWord? && p.words[r.value].prim == prim
    requires !(prim in {LIT, EXIT, BYE}) && Meaning(p.context, prim, d, depth) == Some(d')
    ensures EvalThread(p, limit, items, j, d, depth)
         == Delayed(4 + RoutineCost(p.context, prim, d), EvalThread(p, limit, items, j + 1, d', depth))
  {
    hide Meaning, RoutineCost, Lookup;
  }

  lemma SquareMeans(c: Context, d: Data, a: int)
    requires d.ds == Push(a, Empty) && a >= 0
    ensures Meaning(c, DUP, d, 1) == Some(d.(ds := Push(a, Push(a, Empty))))
    ensures Meaning(c, MUL, d.(ds := Push(a, Push(a, Empty))), 1) == Some(d.(ds := Push(a * a, Empty)))
  {
    hide Meaning;
    Fits(a, a, a, Empty);
    ShuffleIs(c, DUP, d, 1);
    assert Shuffle(DUP, d.ds) == Some(Push(a, Push(a, Empty)));
    KernelWords.ComputedMeans(c, MUL, d.(ds := Push(a, Push(a, Empty))), 1, a, a, Empty, a * a);
  }

  /** What the names in `SQ` are bound to. */
  lemma SquareBound(words: seq<WordSpec>)
    requires words == AllWords(SQUARE)
    ensures |words| == 40 && words[39] == SQUARE[0]
    ensures var r := Lookup(words[..39], "DUP"); r.Some? && words[r.value].CodeWord? && words[r.value].prim == DUP
    ensures var r := Lookup(words[..39], "*"); r.Some? && words[r.value].CodeWord? && words[r.value].prim == MUL
    ensures var r := Lookup(words[..39], "EXIT"); r.Some? && words[r.value].CodeWord? && words[r.value].prim == EXIT
  {
    hide AllWords, Lookup, NewNames, KERNEL_NAMES, Names, PlainUse, Agreeing;
    SquareWritten();
    Agreement.AllWordsSize(SQUARE);
    KernelWordsOnly();
    WordAt(SQUARE, 39);
    StackNames();
    ArithmeticNames();
    ControlNames();
    BoundTo(SQUARE, 0, "DUP", false);
    BoundTo(SQUARE, 0, "*", false);
    BoundTo(SQUARE, 0, "EXIT", false);
  }

  lemma SquareEvaluates(p: Program, d: Data, a: int)
    requires Matched(p) && p.words == AllWords(SQUARE) && d.ds == Push(a, Empty) && d.rs.Empty? && a >= 0
    ensures |p.words| == 40
    ensures EvalWord(p, 39, d, 0).Finished? && EvalWord(p, 39, d, 0).d == d.(ds := Push(a * a, Empty))
  {
    hide AllWords, Lookup, Meaning, RoutineCost, EvalThread;
    SquareBound(p.words);
    SquareMeans(p.context, d, a);
    var items := ItemsOf(["DUP", "*"]);
    var d1 := d.(ds := Push(a, Push(a, Empty)));
    var d2 := d.(ds := Push(a * a, Empty));
    SquareStep(p, items, 0, 39, d, 1, DUP, d1);
    SquareStep(p, items, 1, 39, d1, 1, MUL, d2);
    ExitEvaluates(p, items, 2, 39, d2, 1);
    assert d.(rs := Empty) == d;
  }

  lemma ExitEvaluates(p: Program, items: seq<ThreadItem>, j: nat, limit: nat, d: Data, depth: nat)
    requires Matched(p) && j < |items| && limit <= |p.words| && items[j].WordReference? && d.rs.Empty? && depth > 0
    requires var r := Lookup(p.words[..limit], items[j].name);
      r.Some? && p.words[r.value].CodeWord? && p.words[r.value].prim == EXIT
    ensures EvalThread(p, limit, items, j, d, depth) == Finished(d, 6)
  {
    hide Lookup;
  }

  /** Both square: the machine runs `SQ` to a halt on the square of any integer that is not negative, and
      `ForthService` leaves the square of any integer. */
  lemma SquaredByBoth(m: M.State, a: int, f: Forth, limit: nat)
    requires Calling(SQUARE, 0, m) && DataStack(m) == Push(a, Empty) && ReturnStack(m) == Empty
    requires f.d.ds == Push(a, Empty)
    ensures a >= 0 ==> exists n: nat ::
      RunNeeds(Kernel().program, m, n) && SquareLeft(M.Steps(Kernel().program, m, n), a)
    ensures RunWords(VocabularyOf(SQUARE), ["DUP", "*"], f, limit) == Stacked(f, Push(a * a, Empty))
  {
    hide AllWords, Calling, Comparison, RunNeeds, Names, NewNames, KERNEL_NAMES, Kernel, M.Steps;
    SquareWritten();
    if a >= 0 {
      SquareHalts(m, a);
    }
    SquareServed(f, a, limit);
  }

  ghost predicate SquareLeft(r: Result<M.State, MachineError>, a: int) {
    r.Ok? && M.Sound(r.value) && DataStack(r.value) == Push(a * a, Empty)
  }

  lemma SquareHalts(m: M.State, a: int)
    requires Calling(SQUARE, 0, m) && DataStack(m) == Push(a, Empty) && ReturnStack(m) == Empty && a >= 0
    ensures exists n: nat :: RunNeeds(Kernel().program, m, n) && SquareLeft(M.Steps(Kernel().program, m, n), a)
  {
    hide AllWords, RunNeeds, NewNames, KERNEL_NAMES, EvalThread, EvalWord, Accepted, ImageIn, Unambiguous, Plain, Balanced,
         Lookup, Assemble, CallOf, EntriesOf, M.Steps;
    SquareWritten();
    WrittenComparison(SQUARE, 0, m);
    var words := AllWords(SQUARE);
    var boot := CallOf("SQ");
    var p := ImageProgram(Kernel(), words, boot);
    var d := View(m).d.(rs := Empty);
    ProgramComparable(Kernel(), SQUARE, boot, false);
    CallEvaluates(p, SQUARE, "SQ", d, 0, false);
    SquareEvaluates(p, d, a);
    CompilerCorrect(Kernel(), words, boot, m);
    var n := 3 + BootOutcome(Kernel(), words, boot, m).cost;
    assert RunNeeds(Kernel().program, m, n) && SquareLeft(M.Steps(Kernel().program, m, n), a);
  }

  lemma SquareServed(f: Forth, a: int, limit: nat)
    requires f.d.ds == Push(a, Empty)
    ensures RunWords(VocabularyOf(SQUARE), ["DUP", "*"], f, limit) == Stacked(f, Push(a * a, Empty))
  {
    hide RunName, Minimal, Untouched;
    var v := VocabularyOf(SQUARE);
    assert SQUARE[..0] == [];
    UntouchedAtFirst("DUP");
    UntouchedAtFirst("*");
    UntouchedByOthers(VocabularyOf([]), "DUP", "SQ", ["DUP", "*"]);
    UntouchedByOthers(VocabularyOf([]), "*", "SQ", ["DUP", "*"]);
    var f1 := f.(d := f.d.(ds := Push(a, Push(a, Empty))));
    TopCopied(v, f, limit, a, Empty);
    PairNamesDo(v, "*", f1, limit, a, a, Empty);
    var f2 := f.(d := f.d.(ds := Push(a * a, Empty)));
    assert ["DUP", "*"][1..] == ["*"] && ["*"][1..] == [];
    assert RunWords(v, [], f2, limit) == Fine(f2);
    assert RunWords(v, ["*"], f1, limit) == Fine(f2);
  }

  /** `DUP` in `ForthService`, whatever lies below the top. */
  lemma TopCopied(v: Vocabulary, f: Forth, limit: nat, a: int, r: Stack)
    requires Untouched(v, "DUP") && f.d.ds == Push(a, r) && Depth(r) + 2 <= DATA_STACK_SIZE
    ensures RunName(v, "DUP", f, limit) == Stacked(f, Push(a, Push(a, r)))
  {
    hide Names, RunName, Untouched;
    StackNames();
    Performs(v, "DUP", DUP, f, limit);
    Fits(a, a, a, r);
    assert Shuffle(DUP, f.d.ds) == Some(Push(a, Push(a, r)));
  }
}
