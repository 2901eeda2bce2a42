/** The two implementations also fail alike: an underflow, or an overflow of the data stack, in one is the
    same error in the other. */
module AgreementErrors {
  import opened Wrappers
  import opened Isa
  import opened Cpu
  import opened Layout
  import opened Stacks
  import opened Assembler
  import opened AbstractMachine
  import opened KernelSource
  import opened KernelLayout
  import opened DictionaryShape
  import opened Words
  import opened Primitives
  import opened Troubles
  import opened Evaluation
  import opened Building
  import opened Correctness
  import opened ForthWords
  import opened Separation
  import opened Agreement
  import M = Machine

  /** The errors the data stack raises; the return stacks of the two do not hold the same. */
  predicate OfData(fault: Fault) { fault == EmptyData || fault == FullData }

  function Failure(fault: Fault): Answer { Raises(ForthError.Machine(ErrorOf(fault))) }

  // ---- primitives ----

  lemma ShuffleFails(c: Context, p: Prim, d: Data, depth: nat, f: Forth)
    requires IsShuffle(p) && Meaning(c, p, d, depth).None? && TroubleOf(p, d, depth).Hits? && f.d.ds == d.ds
    ensures Perform(p, f) == Failure(TroubleOf(p, d, depth).fault)
  {
    hide Meaning, Depth;
    ShuffleIs(c, p, d, depth);
    ShuffleNeeds(p, d.ds);
  }

  /** A stack word has its operands exactly when its rearrangement exists. */
  lemma ShuffleNeeds(p: Prim, s: Stack)
    requires IsShuffle(p)
    ensures Shuffle(p, s).None? <==> Depth(s) < Operands(p)
  {
    if s.Push? {
      assert Depth(s) == 1 + Depth(s.rest);
      if s.rest.Push? {
        assert Depth(s) == 2 + Depth(s.rest.rest);
        assert s.rest.rest.Push? ==> Depth(s) >= 3;
      }
    }
  }

  lemma ReturnFails(c: Context, p: Prim, d: Data, depth: nat, f: Forth, outer: Stack)
    requires IsReturnWord(p) && Meaning(c, p, d, depth).None? && Matches(d, f, outer, false)
    requires TroubleOf(p, d, depth).Hits? && OfData(TroubleOf(p, d, depth).fault)
    ensures Perform(p, f) == Failure(TroubleOf(p, d, depth).fault)
  {
    hide Meaning;
    ReturnIs(c, p, d, depth);
  }

  lemma UnaryFails(p: Prim, d: Data, depth: nat, f: Forth)
    requires IsUnary(p) && TroubleOf(p, d, depth).Hits? && f.d.ds == d.ds
    ensures Perform(p, f) == Failure(TroubleOf(p, d, depth).fault)
  {
  }

  lemma BinaryFails(p: Prim, d: Data, depth: nat, f: Forth)
    requires IsBinary(p) && TroubleOf(p, d, depth).Hits? && f.d.ds == d.ds
    ensures Perform(p, f) == Failure(TroubleOf(p, d, depth).fault)
  {
    assert d.ds.Push? && d.ds.rest.Push? ==> Depth(d.ds) == 2 + Depth(d.ds.rest.rest);
  }

  lemma PrimFails(c: Context, p: Prim, d: Data, depth: nat, f: Forth, outer: Stack)
    requires Agreeing(p, false) && Meaning(c, p, d, depth).None? && Matches(d, f, outer, false)
    requires TroubleOf(p, d, depth).Hits? && OfData(TroubleOf(p, d, depth).fault)
    ensures Perform(p, f) == Failure(TroubleOf(p, d, depth).fault)
  {
    hide Meaning, Perform, TroubleOf;
    if IsShuffle(p) {
      ShuffleFails(c, p, d, depth, f);
    } else if IsReturnWord(p) {
      ReturnFails(c, p, d, depth, f, outer);
    } else if IsUnary(p) {
      UnaryFails(p, d, depth, f);
    } else {
      BinaryFails(p, d, depth, f);
    }
  }

  // ---- words ----

  /** Evaluation ends in an error of the data stack. */
  predicate FailsOnData(o: Outcome) { o.Raised? && OfData(o.fault) }

  lemma {:induction false} WordFails(
    p: Program, colon: seq<WordSpec>, i: nat, d: Data, depth: nat, f: Forth, outer: Stack, limit: nat)
    requires Comparable(p, colon, false) && i < |p.words|
    requires p.words[i].CodeWord? ==> Agreeing(p.words[i].prim, false)
    requires Bounded(d, depth) && Matches(d, f, outer, false) && Sure(i, depth, outer, limit)
    requires FailsOnData(EvalWord(p, i, d, depth))
    ensures RunWord(VocabularyOf(colon), p.words[i], f, limit) == Failure(EvalWord(p, i, d, depth).fault)
    decreases i, 1, 0
  {
    hide Meaning, Perform, RoutineCost, AllWords, VocabularyOf, Unambiguous, Plain, EvalThread, RunWords, TroubleOf,
         TroubleCost;
    match p.words[i]
    case CodeWord(_, prim, _) =>
      PrimFails(p.context, prim, d, depth, f, outer);
    case ColonWord(_, code, _) =>
      DepthOver(d.rs, outer);
      ThreadFails(p, colon, i, 0, d.(rs := Empty), depth + Depth(d.rs) + 1, f, Over(d.rs, outer), limit);
      assert code[0..] == code;
  }

  lemma {:induction false} ThreadFails(
    p: Program, colon: seq<WordSpec>, i: nat, j: nat, d: Data, depth: nat, f: Forth, outer: Stack, limit: nat)
    requires Comparable(p, colon, false) && i < |p.words| && p.words[i].ColonWord? && j <= |p.words[i].words|
    requires Bounded(d, depth) && Matches(d, f, outer, false) && Sure(i, depth, outer, limit) && depth > 0
    requires FailsOnData(EvalThread(p, i, ItemsOf(p.words[i].words), j, d, depth))
    ensures RunWords(VocabularyOf(colon), p.words[i].words[j..], f, limit)
         == Failure(EvalThread(p, i, ItemsOf(p.words[i].words), j, d, depth).fault)
    decreases i, 0, |p.words[i].words| - j
  {
    hide EvalWord, AllWords, VocabularyOf, Unambiguous, Plain, Matches, Bounded, Lookup;
    var code := p.words[i].words;
    var v := VocabularyOf(colon);
    if j == |code| {
      ExitIsBound(p, colon, i, false);
    } else if Lookup(p.words[..i], code[j]).Some? {
      var r := Lookup(p.words[..i], code[j]).value;
      Bound(p, i, j, r, false);
      NameRuns(p, colon, i, code[j], f, limit, false);
      assert code[j..][0] == code[j] && code[j..][1..] == code[j + 1..];
      if EvalWord(p, r, d, depth).Finished? {
        WordAgrees(p, colon, r, d, depth, f, outer, limit - 1, false);
        EvalBounded(p, r, d, depth);
        ThreadFails(p, colon, i, j + 1, EvalWord(p, r, d, depth).d, depth,
                    RunWord(v, p.words[r], f, limit - 1).f, outer, limit);
      } else {
        WordFails(p, colon, r, d, depth, f, outer, limit - 1);
      }
    }
  }

  // ---- the two machines ----

  /** What the emulator raises is what evaluation does. */
  lemma RaisedThere(program: seq<InstructionDto>, m: M.State, k: nat, o: Outcome, top: int, n: nat, fault: Fault)
    requires M.Sound(m) && Comports(program, m, k, o, top) && RaisesAs(program, m, n, fault)
    ensures !o.Stopped? && !o.Endless? && (o.Raised? ==> o.fault == fault && k + o.cost == n)
  {
    hide M.Run, M.Steps, HaltsAs, M.Step, NextEffect;
    assert M.Run(program, m, n + 1) == Err(ErrorOf(fault)) && M.Run(program, m, n) == Err(StepLimit);
    var last := k + if o.Endless? then 0 else o.cost;
    var before, after, far := M.Run(program, m, last), M.Run(program, m, last + 1), M.Run(program, m, last + n + 1);
    assert far == Err(ErrorOf(fault));
    match o
    case Raised(fault', _) =>
      assert after == Err(ErrorOf(fault')) && before == Err(StepLimit);
    case _ =>
  }

  /** One error in both: when the emulator's run of a call of a colon word ends in an underflow or an
      overflow of the data stack, `_execute_colon` raises the same, under the conditions on which it
      raises nothing when the run halts. */
  lemma ErrorsAgree(
    asm: Assembly, colon: seq<WordSpec>, name: string, m: M.State, n: nat, fault: Fault, f: Forth, limit: nat)
    requires Comparison(asm, colon, name, m, false) && Balanced(AllWords(colon))
    requires RaisesAs(asm.program, m, n, fault) && OfData(fault) && f.d.ds == DataStack(m)
    requires Sure(|AllWords(colon)|, Depth(ReturnStack(m)), f.d.rs, limit)
    ensures Executed(colon, name, f, limit) == Failure(fault)
  {
    hide KernelLoaded, AllWords, VocabularyOf, Unambiguous, Plain, Balanced, Lookup, Accepted, ImageIn, HaltsAs, RaisesAs,
         RunNeeds, NeverStops, EvalThread, EvalWord, RunWords, EntriesOf, M.Run, CallOf;
    var words := AllWords(colon);
    var p := ImageProgram(asm, words, CallOf(name));
    var d := View(m).d.(rs := Empty);
    var depth := Depth(ReturnStack(m));
    var i := Lookup(words, name).value;
    ProgramComparable(asm, colon, CallOf(name), false);
    CallEvaluates(p, colon, name, d, depth, false);
    WordSettles(p, colon, i, d, depth);
    CompilerCorrect(asm, words, CallOf(name), m);
    RaisedThere(asm.program, m, 3, BootOutcome(asm, words, CallOf(name), m), ImageTop(words, CallOf(name)), n, fault);
    StackAtDepth(m.mem, m.dsp, DATA_STACK_BASE);
    StackAtDepth(m.mem, m.rsp, RETURN_STACK_BASE);
    WordFails(p, colon, i, d, depth, f, f.d.rs, limit);
  }
}
