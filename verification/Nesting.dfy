/** Calls nest no deeper than there are colon words, so a program that fits in the dictionary and
    leaves `>R` alone cannot overflow the return stack. */
module Nesting {
  import opened Wrappers
  import opened Isa
  import opened Layout
  import opened Stacks
  import opened Assembler
  import opened AbstractMachine
  import opened KernelSource
  import opened KernelLayout
  import opened Troubles
  import opened DictionaryShape
  import opened DictionaryAdapter
  import opened Words
  import opened Primitives
  import opened Evaluation
  import opened Building
  import opened Cpu
  import opened Control
  import opened Separation
  import opened Correctness
  import M = Machine

  // ---- threads point downwards ----

  /** Every cell of a colon word's thread is the code field of a word installed before it, at a lower
      address: no definition can reach itself. */
  lemma ThreadsPointDown(asm: Assembly, words: seq<WordSpec>, i: nat, j: nat)
    requires AllResolvable(words) && i < |words| && words[i].ColonWord? && j <= |words[i].words|
    ensures var es := EntriesOf(asm, words);
      && j < |es[i].thread|
      && exists r {:trigger Cfa(es, r)} :: 0 <= r < i && es[i].thread[j] == Cfa(es, r) < Cfa(es, i)
  {
    hide EntriesOf, Cfa, Lookup;
    var es := EntriesOf(asm, words);
    var item := ItemsOf(words[i].words)[j];
    EntryInstalled(asm, words, i);
    EntriesPrefix(asm, words, i);
    assert item in ItemsOf(words[i].words) && Resolvable(words[..i], words[i]);
    var r := Lookup(words[..i], item.name).value;
    CfaPrefix(es, i, r);
    CfaAscends(es, r, i);
    assert es[i].thread[j] == Cfa(es, r);
  }

  // ---- how many words fit ----

  lemma {:induction false} SixCellsEach(words: seq<WordSpec>)
    requires forall w :: w in words ==> w.ColonWord? || w.name != ""
    ensures DICTIONARY_BASE + 6 * |words| <= ImageEnd(words)
    decreases |words|
  {
    if words != [] {
      SixCellsEach(words[..|words| - 1]);
    }
  }

  lemma NamesNotEmpty(p: Prim)
    ensures WordName(p) != ""
  {
  }

  /** An image that fits has at most 301 colon words besides the kernel's 39 CODE words. */
  lemma FewColonWords(colon: seq<WordSpec>)
    requires forall w :: w in colon ==> w.ColonWord?
    requires ImageEnd(AllWords(colon)) <= DICTIONARY_TOP
    ensures |colon| <= 301
  {
    hide WordName, ImageEnd;
    forall w | w in AllWords(colon)
      ensures w.ColonWord? || w.name != ""
    {
      if w.CodeWord? {
        NamesNotEmpty(w.prim);
      }
    }
    SixCellsEach(AllWords(colon));
    assert |PRIMITIVES| == 39;
  }

  // ---- calls ----

  /** How many colon words there are among the first `n`. */
  function ColonCount(words: seq<WordSpec>, n: nat): nat
    requires n <= |words|
  {
    if n == 0 then 0 else ColonCount(words, n - 1) + if words[n - 1].ColonWord? then 1 else 0
  }

  lemma {:induction false} ColonCountMonotonic(words: seq<WordSpec>, n: nat, k: nat)
    requires n <= k <= |words|
    ensures ColonCount(words, n) <= ColonCount(words, k)
    decreases k
  {
    if n < k {
      ColonCountMonotonic(words, n, k - 1);
    }
  }

  /** No item of a thread bound among the first `limit` words is `>R`. */
  predicate Avoids(words: seq<WordSpec>, limit: nat, items: seq<ThreadItem>)
    requires limit <= |words|
  {
    forall j :: 0 <= j < |items| && items[j].WordReference? ==>
      match Lookup(words[..limit], items[j].name)
      case None => true
      case Some(r) => words[r].CodeWord? ==> words[r].prim != TOR
  }

  /** No definition uses `>R`. */
  predicate LeavesReturnStack(words: seq<WordSpec>) {
    forall i :: 0 <= i < |words| && words[i].ColonWord? ==> Avoids(words, i, ItemsOf(words[i].words))
  }

  lemma MeaningAnyDepth(c: Context, prim: Prim, d: Data, depth: nat, depth': nat)
    requires prim != TOR
    ensures Meaning(c, prim, d, depth) == Meaning(c, prim, d, depth')
  {
    hide ShuffleMeaning, DeviceMeaning, FetchMeaning, StoreMeaning, NumberMeaning, WordMeaning, FindMeaning,
         ArithmeticMeaning;
  }

  /** Nor does a word other than `>R` find the return stack full where it has no meaning. */
  lemma TroubleAnyDepth(prim: Prim, d: Data, depth: nat, depth': nat)
    requires prim != TOR
    ensures TroubleOf(prim, d, depth) != Hits(FullReturn)
    ensures (depth == 0 <==> depth' == 0) ==> TroubleOf(prim, d, depth) == TroubleOf(prim, d, depth')
  {
    hide RunsDry, Counted;
  }

  /** Evaluation ends in a call that finds no room for its way back. */
  predicate Overflows(o: Outcome) { o.Raised? && o.fault.FullReturn? }

  /** Room on the return stack for `d`'s own cells and one more for each call that can nest. */
  predicate Roomy(d: Data, depth: nat, calls: nat) { depth + Depth(d.rs) + calls <= RETURN_STACK_SIZE }

  /** With that room no call overflows the return stack, and how full it is to begin with makes no
      difference; except that a word which takes a cell not its own is refused one when there is none. */
  lemma {:induction false} WordNests(p: Program, i: nat, d: Data, depth: nat, depth': nat)
    requires Matched(p) && LeavesReturnStack(p.words) && i < |p.words|
    requires p.words[i].CodeWord? ==> p.words[i].prim != TOR
    requires Roomy(d, depth, ColonCount(p.words, i + 1)) && Roomy(d, depth', ColonCount(p.words, i + 1))
    ensures !Overflows(EvalWord(p, i, d, depth))
    ensures EvalWord(p, i, d, depth).Finished? ==> Depth(EvalWord(p, i, d, depth).d.rs) <= Depth(d.rs)
    ensures p.words[i].ColonWord? || (depth == 0 <==> depth' == 0) ==>
      EvalWord(p, i, d, depth) == EvalWord(p, i, d, depth')
    decreases i, 1, 0
  {
    hide Meaning, RoutineCost, EvalThread, TroubleOf, TroubleCost;
    match p.words[i]
    case CodeWord(_, prim, _) =>
      MeaningAnyDepth(p.context, prim, d, depth, depth');
      TroubleAnyDepth(prim, d, depth, depth');
      if Meaning(p.context, prim, d, depth).Some? {
        MeaningKeeps(p.context, prim, d, depth);
      }
    case ColonWord(_, words, _) =>
      ThreadNests(p, i, ItemsOf(words), 0, d.(rs := Empty), depth + Depth(d.rs) + 1, depth' + Depth(d.rs) + 1);
  }

  lemma {:induction false} ThreadNests(
    p: Program, limit: nat, items: seq<ThreadItem>, j: nat, d: Data, depth: nat, depth': nat)
    requires Matched(p) && LeavesReturnStack(p.words) && limit <= |p.words| && j <= |items|
    requires Avoids(p.words, limit, items)
    requires Roomy(d, depth, ColonCount(p.words, limit)) && Roomy(d, depth', ColonCount(p.words, limit))
    ensures !Overflows(EvalThread(p, limit, items, j, d, depth))
    ensures (depth == 0 <==> depth' == 0) ==>
      EvalThread(p, limit, items, j, d, depth) == EvalThread(p, limit, items, j, d, depth')
    decreases limit, 0, |items| - j
  {
    hide EvalWord, Lookup, LeavesReturnStack, Avoids;
    if j < |items| && items[j].WordReference? && Lookup(p.words[..limit], items[j].name).Some? {
      var r := Lookup(p.words[..limit], items[j].name).value;
      if IsPrim(p, r, EXIT) {
      } else if IsPrim(p, r, LIT) {
        if j + 1 < |items| && CellOf(p, limit, items[j + 1]).Some? {
          var d1 := d.(ds := Push(CellOf(p, limit, items[j + 1]).value, d.ds));
          ThreadNests(p, limit, items, j + 2, d1, depth, depth');
        }
      } else {
        NotToR(p, limit, items, j, r);
        ColonCountMonotonic(p.words, r + 1, limit);
        WordNests(p, r, d, depth, depth');
        match EvalWord(p, r, d, depth)
        case Finished(d', _) => ThreadNests(p, limit, items, j + 1, d', depth, depth');
        case _ =>
      }
    }
  }

  lemma NotToR(p: Program, limit: nat, items: seq<ThreadItem>, j: nat, r: nat)
    requires limit <= |p.words| && Avoids(p.words, limit, items) && j < |items| && items[j].WordReference?
    requires Lookup(p.words[..limit], items[j].name) == Some(r)
    ensures p.words[r].CodeWord? ==> p.words[r].prim != TOR
  {
  }

  lemma {:induction false} FewColonsAmong(colon: seq<WordSpec>, n: nat)
    requires n <= |AllWords(colon)| && forall w :: w in colon ==> w.ColonWord?
    ensures ColonCount(AllWords(colon), n) <= if n <= |PRIMITIVES| then 0 else n - |PRIMITIVES|
  {
    hide WordName, AllWords;
    if n > 0 {
      FewColonsAmong(colon, n - 1);
      AllWordsAt(colon, n - 1);
    }
  }

  /** For every image that fits and leaves `>R` alone: calling any word with up to 722 return-stack
      cells taken never ends in a full return stack, and a colon word does exactly what it does with
      none taken. */
  lemma ReturnStackSuffices(asm: Assembly, colon: seq<WordSpec>, top: int, i: nat, d: Data, depth: nat)
    requires forall w :: w in colon ==> w.ColonWord?
    requires ImageEnd(AllWords(colon)) <= DICTIONARY_TOP && LeavesReturnStack(AllWords(colon))
    requires i < |AllWords(colon)|
    requires AllWords(colon)[i].CodeWord? ==> AllWords(colon)[i].prim != TOR
    requires depth + Depth(d.rs) <= RETURN_STACK_SIZE - 302
    ensures var p := ProgramOf(asm, AllWords(colon), top);
      && !Overflows(EvalWord(p, i, d, depth))
      && (p.words[i].ColonWord? ==> EvalWord(p, i, d, depth) == EvalWord(p, i, d, 0))
  {
    hide AllWords, LeavesReturnStack, EvalWord, ColonCount, ImageEnd;
    FewColonWords(colon);
    FewColonsAmong(colon, i + 1);
    AllWordsAt(colon, i);
    WordNests(ProgramOf(asm, AllWords(colon), top), i, d, depth, 0);
  }

  /** The boot thread of such an image, neither. */
  lemma BootNeverOverflows(asm: Assembly, colon: seq<WordSpec>, boot: seq<ThreadItem>, m: M.State)
    requires forall w :: w in colon ==> w.ColonWord?
    requires ImageEnd(AllWords(colon)) <= DICTIONARY_TOP && LeavesReturnStack(AllWords(colon))
    requires Avoids(AllWords(colon), |AllWords(colon)|, boot)
    requires M.Sound(m) && Depth(ReturnStack(m)) <= RETURN_STACK_SIZE - 302
    ensures !Overflows(BootOutcome(asm, AllWords(colon), boot, m))
  {
    hide AllWords, LeavesReturnStack, EvalThread, ColonCount, ImageEnd, View, Avoids;
    var words := AllWords(colon);
    FewColonWords(colon);
    FewColonsAmong(colon, |words|);
    AllWordsCount(colon);
    var depth := Depth(ReturnStack(m));
    ThreadNests(ImageProgram(asm, words, boot), |words|, boot, 0, View(m).d.(rs := Empty), depth, depth);
  }

  lemma AllWordsCount(colon: seq<WordSpec>)
    ensures |AllWords(colon)| == |PRIMITIVES| + |colon|
  {
    hide WordName;
  }

  /** And on the machine: from the first step to the last that evaluation speaks of, no `PUSH_R` of the
      run is refused; neither a call's nor any other. */
  lemma CallsNeverOverflow(asm: Assembly, colon: seq<WordSpec>, boot: seq<ThreadItem>, m: M.State, k: nat)
    requires KernelLoaded(asm) && (forall w :: w in colon ==> w.ColonWord?)
    requires Accepted(AllWords(colon), boot) && Booted(AllWords(colon), m)
    requires ImageIn(asm, AllWords(colon), boot, m.mem[..DICTIONARY_SIZE])
    requires LeavesReturnStack(AllWords(colon)) && Avoids(AllWords(colon), |AllWords(colon)|, boot)
    requires Depth(ReturnStack(m)) <= RETURN_STACK_SIZE - 302
    requires var o := BootOutcome(asm, AllWords(colon), boot, m);
      3 <= k && (Within(o, k - 3) || (o.Raised? && k == 3 + o.cost))
    ensures M.Steps(asm.program, m, k).Ok?
    ensures var here := M.Steps(asm.program, m, k).value;
      NextEffect(asm.program, here).Ok? && NextEffect(asm.program, here).value.PushReturn? ==>
        M.Step(asm.program, here).Ok?
  {
    hide KernelLoaded, AllWords, LeavesReturnStack, Avoids, BootOutcome, M.Steps, Accepted, ImageIn, InOrder,
         NextEffect, Within, ImageEnd;
    var words := AllWords(colon);
    var o := BootOutcome(asm, words, boot, m);
    if Within(o, k - 3) {
      ControlKept(asm, words, boot, m, k);
      NextStep(asm.program, m, k);
    } else {
      CompilerCorrect(asm, words, boot, m);
      assert ImageEnd(words) <= DICTIONARY_TOP by { EndsInside(words, boot); }
      BootNeverOverflows(asm, colon, boot, m);
    }
  }

  lemma EndsInside(words: seq<WordSpec>, boot: seq<ThreadItem>)
    requires Accepted(words, boot)
    ensures ImageEnd(words) <= DICTIONARY_TOP
  {
  }

  lemma NextStep(program: seq<InstructionDto>, m: M.State, k: nat)
    requires M.Sound(m) && M.Steps(program, m, k).Ok? && M.Steps(program, m, k + 1).Ok?
    ensures M.Step(program, M.Steps(program, m, k).value).Ok?
  {
    hide M.Step;
    M.StepsAdd(program, m, k, 1);
  }
}
