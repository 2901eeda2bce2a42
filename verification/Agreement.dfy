/** The kernel and `ForthService` are two implementations of one language: where the static binding of
    the first and the late binding of the second cannot differ, they compute the same, each in its own
    memory unless the program reads or writes memory itself. */
module Agreement {
  import opened Wrappers
  import opened Isa
  import opened Layout
  import opened Stacks
  import opened Assembler
  import opened AbstractMachine
  import opened KernelSource
  import opened KernelLayout
  import opened DictionaryShape
  import opened Words
  import opened Primitives
  import opened Troubles
  import opened Evaluation
  import opened Building
  import opened Correctness
  import opened ForthWords
  import opened Separation
  import KernelAssembles
  import M = Machine

  /** The primitives both give the same meaning: all they share but the control words, and but the
      comparisons, whose flags are -1 and 0 in the kernel, 1 and 0 in `ForthService`. `@` and `!` only
      agree when the two share their memory, or hold the same in it. */
  predicate Agreeing(p: Prim, shared: bool) {
    && Shared(p)
    && !(p in {EXIT, BYE, EQUALS, NOTEQUALS, LESSTHAN, GREATERTHAN, ZEROEQ, ZEROLT})
    && (shared || !(p in {FETCH, STOREW}))
  }

  /** What `ForthService` knows after `add_colon_def` of each of `colon` in turn. */
  function VocabularyOf(colon: seq<WordSpec>): (v: Vocabulary)
    requires forall w :: w in colon ==> w.ColonWord?
    ensures Closed(v)
  {
    if colon == [] then Vocabulary(Minimal(PRIMITIVES), map[])
    else
      var w := colon[|colon| - 1];
      WithColon(VocabularyOf(colon[..|colon| - 1]), w.name, w.words)
  }

  /** Word `j` does not take the name of word `i` if it is a colon word. */
  predicate Apart(words: seq<WordSpec>, i: nat, j: nat)
    requires i < j < |words|
  {
    words[j].ColonWord? ==> words[i].name != words[j].name
  }

  /** No colon word takes a name that was taken before it. */
  predicate Unambiguous(words: seq<WordSpec>) { forall i, j :: 0 <= i < j < |words| ==> Apart(words, i, j) }

  /** The `j`-th word of definition `i` is a colon word or a primitive the two agree on. */
  predicate PlainAt(words: seq<WordSpec>, i: nat, j: nat, shared: bool)
    requires i < |words| && words[i].ColonWord? && j < |words[i].words|
  {
    match Lookup(words[..i], words[i].words[j])
    case None => true
    case Some(r) => words[r].CodeWord? ==> Agreeing(words[r].prim, shared)
  }

  /** Definitions only use colon words and primitives the two agree on. */
  predicate Plain(words: seq<WordSpec>, shared: bool) {
    forall i, j :: 0 <= i < |words| && words[i].ColonWord? && 0 <= j < |words[i].words| ==> PlainAt(words, i, j, shared)
  }

  /** From its `j`-th word on, definition `i` takes from the return stack only what it has put there,
      `held` cells to begin with, and leaves nothing on it. */
  predicate BalancedFrom(words: seq<WordSpec>, i: nat, j: nat, held: nat)
    requires i < |words| && words[i].ColonWord? && j <= |words[i].words|
    decreases |words[i].words| - j
  {
    if j == |words[i].words| then held == 0
    else
      match Lookup(words[..i], words[i].words[j])
      case None => false
      case Some(r) =>
        if words[r].CodeWord? && words[r].prim == TOR then BalancedFrom(words, i, j + 1, held + 1)
        else if words[r].CodeWord? && words[r].prim == FROMR then held > 0 && BalancedFrom(words, i, j + 1, held - 1)
        else (words[r].CodeWord? && words[r].prim == RFETCH ==> held > 0) && BalancedFrom(words, i, j + 1, held)
  }

  /** The rule of section 3.2.3.3 of Forth 2012, checked definition by definition. */
  predicate Balanced(words: seq<WordSpec>) {
    forall i :: 0 <= i < |words| && words[i].ColonWord? ==> BalancedFrom(words, i, 0, 0)
  }

  // ---- comparisons ----

  /** The two disagree on every comparison, by the sign of true. */
  lemma ComparisonsNegate(p: Prim, a: int, b: int)
    ensures p in {EQUALS, NOTEQUALS, LESSTHAN, GREATERTHAN} ==> Binary(p, a, b) == Some(-BinaryOp(p, a, b))
    ensures p in {ZEROEQ, ZEROLT} ==> Unary(p, a).Some? && UnaryOp(p, a) == Some(-Unary(p, a).value)
  {
  }

  // ---- names ----

  lemma {:induction false} MinimalEntry(prims: seq<Prim>, r: nat)
    requires r < |prims| && Shared(prims[r])
    requires forall k :: r < k < |prims| ==> WordName(prims[k]) != WordName(prims[r])
    ensures WordName(prims[r]) in Minimal(prims)
    ensures Minimal(prims)[WordName(prims[r])] == Primitive(prims[r])
    decreases |prims|
  {
    hide WordName, Shared;
    if r < |prims| - 1 {
      MinimalEntry(prims[..|prims| - 1], r);
    }
  }

  lemma {:induction false} VocabularyEntry(colon: seq<WordSpec>, name: string)
    requires forall w :: w in colon ==> w.ColonWord?
    ensures var v := VocabularyOf(colon);
      match Lookup(colon, name)
      case None => (name in v.entries <==> name in Minimal(PRIMITIVES))
                   && (name in v.entries ==> v.entries[name] == Minimal(PRIMITIVES)[name])
      case Some(j) => name in v.entries && v.entries[name] == Definition(name)
                      && name in v.colonDefs && v.colonDefs[name] == colon[j].words
  {
    hide Minimal;
    if colon != [] {
      VocabularyEntry(colon[..|colon| - 1], name);
    }
  }

  /** The newest word of a name, for a list none of whose later words has it. */
  lemma {:induction false} LookupIs(words: seq<WordSpec>, r: nat)
    requires r < |words| && forall k :: r < k < |words| ==> words[k].name != words[r].name
    ensures Lookup(words, words[r].name) == Some(r)
  {
  }

  /** The name of word `r` of an image is taken by no later word before word `i`, nor by any colon
      word but itself. */
  lemma NewestOfName(colon: seq<WordSpec>, i: nat, r: nat)
    requires forall w :: w in colon ==> w.ColonWord?
    requires Unambiguous(AllWords(colon)) && r < i < |AllWords(colon)| && AllWords(colon)[i].ColonWord?
    requires forall k :: r < k < i ==> AllWords(colon)[k].name != AllWords(colon)[r].name
    ensures forall k :: r < k < |AllWords(colon)| ==> AllWords(colon)[k].name != AllWords(colon)[r].name
  {
    hide WordName, AllWords;
    var words := AllWords(colon);
    AllWordsAt(colon, i);
    forall k | i <= k < |words|
      ensures words[k].name != words[r].name
    {
      AllWordsAt(colon, k);
      assert Apart(words, r, k);
    }
  }

  lemma PrimitiveBinding(colon: seq<WordSpec>, r: nat)
    requires forall w :: w in colon ==> w.ColonWord?
    requires r < |AllWords(colon)| && AllWords(colon)[r].CodeWord? && Shared(AllWords(colon)[r].prim)
    requires forall k :: r < k < |AllWords(colon)| ==> AllWords(colon)[k].name != AllWords(colon)[r].name
    ensures var v, w := VocabularyOf(colon), AllWords(colon)[r];
      w.name in v.entries && v.entries[w.name] == Primitive(w.prim)
  {
    hide Minimal, WordName, Shared, VocabularyOf, AllWords;
    var w := AllWords(colon)[r];
    var n := |PRIMITIVES|;
    AllWordsAt(colon, r);
    forall k | 0 <= k < |colon|
      ensures colon[k].name != w.name
    {
      AllWordsAt(colon, n + k);
    }
    forall k | r < k < n
      ensures WordName(PRIMITIVES[k]) != WordName(PRIMITIVES[r])
    {
      AllWordsAt(colon, k);
    }
    VocabularyEntry(colon, w.name);
    MinimalEntry(PRIMITIVES, r);
  }

  lemma ColonBinding(colon: seq<WordSpec>, r: nat)
    requires forall w :: w in colon ==> w.ColonWord?
    requires r < |AllWords(colon)| && AllWords(colon)[r].ColonWord?
    requires forall k :: r < k < |AllWords(colon)| ==> AllWords(colon)[k].name != AllWords(colon)[r].name
    ensures var v, w := VocabularyOf(colon), AllWords(colon)[r];
      && w.name in v.entries && v.entries[w.name] == Definition(w.name)
      && w.name in v.colonDefs && v.colonDefs[w.name] == w.words
  {
    hide Minimal, WordName, VocabularyOf, AllWords;
    var n := |PRIMITIVES|;
    AllWordsAt(colon, r);
    forall k | r - n < k < |colon|
      ensures colon[k].name != AllWords(colon)[r].name
    {
      AllWordsAt(colon, n + k);
    }
    LookupIs(colon, r - n);
    VocabularyEntry(colon, AllWords(colon)[r].name);
  }

  /** Late binding finds what static binding found. */
  lemma SameBinding(colon: seq<WordSpec>, i: nat, name: string)
    requires forall w :: w in colon ==> w.ColonWord?
    requires Unambiguous(AllWords(colon)) && i < |AllWords(colon)| && AllWords(colon)[i].ColonWord?
    requires Lookup(AllWords(colon)[..i], name).Some?
    ensures var v, words := VocabularyOf(colon), AllWords(colon);
      match words[Lookup(words[..i], name).value]
      case CodeWord(_, prim, _) => Shared(prim) ==> name in v.entries && v.entries[name] == Primitive(prim)
      case ColonWord(_, code, _) =>
        name in v.entries && v.entries[name] == Definition(name) && name in v.colonDefs && v.colonDefs[name] == code
  {
    hide Minimal, WordName, Shared, VocabularyOf, AllWords, Unambiguous;
    var words := AllWords(colon);
    var r := Lookup(words[..i], name).value;
    NewestOfName(colon, i, r);
    if words[r].ColonWord? {
      ColonBinding(colon, r);
    } else if Shared(words[r].prim) {
      PrimitiveBinding(colon, r);
    }
  }

  /** No colon word takes the name of a kernel word: it is bound as it always was. */
  lemma KernelWordBound(colon: seq<WordSpec>, k: nat, i: nat)
    requires forall w :: w in colon ==> w.ColonWord?
    requires Unambiguous(AllWords(colon)) && k < |PRIMITIVES| <= i <= |AllWords(colon)|
    requires forall j :: k < j < |PRIMITIVES| ==> WordName(PRIMITIVES[j]) != WordName(PRIMITIVES[k])
    ensures Lookup(AllWords(colon)[..i], WordName(PRIMITIVES[k])) == Some(k)
    ensures AllWords(colon)[k].CodeWord? && AllWords(colon)[k].prim == PRIMITIVES[k]
  {
    hide WordName, AllWords;
    var words := AllWords(colon);
    AllWordsSize(colon);
    AllWordsAt(colon, k);
    forall j | k < j < i
      ensures words[..i][j].name != words[..i][k].name
    {
      AllWordsAt(colon, j);
      assert Apart(words, k, j);
    }
    LookupIs(words[..i], k);
  }

  lemma AllWordsSize(colon: seq<WordSpec>)
    ensures |AllWords(colon)| == |PRIMITIVES| + |colon|
  {
    hide WordName;
  }

  /** `EXIT` and `BYE` are the second and third of the kernel's words, and no other has their names. */
  lemma ExitAndBye()
    ensures |PRIMITIVES| > 2 && PRIMITIVES[1] == EXIT && WordName(EXIT) == EXIT_WORD
    ensures PRIMITIVES[2] == BYE && WordName(BYE) == BYE_WORD
    ensures forall j :: 1 < j < |PRIMITIVES| ==> WordName(PRIMITIVES[j]) != WordName(EXIT)
    ensures forall j :: 2 < j < |PRIMITIVES| ==> WordName(PRIMITIVES[j]) != WordName(BYE)
  {
    FirstThree();
    OwnNames();
    hide WordName, PRIMITIVES;
    forall j | 1 < j < |PRIMITIVES|
      ensures PRIMITIVES[j] != EXIT && (j > 2 ==> PRIMITIVES[j] != BYE)
    {
      KernelAssembles.InOrder(j);
    }
  }

  lemma FirstThree()
    ensures |PRIMITIVES| > 2 && PRIMITIVES[1] == EXIT && PRIMITIVES[2] == BYE
  {
  }

  lemma OwnNames()
    ensures WordName(EXIT) == EXIT_WORD && WordName(BYE) == BYE_WORD
    ensures forall p: Prim :: p != EXIT ==> WordName(p) != WordName(EXIT)
    ensures forall p: Prim :: p != BYE ==> WordName(p) != WordName(BYE)
  {
  }

  // ---- primitives ----

  /** The same data stack, on the return stack the running definition's own cells over `outer`, and, if
      memory is `shared`, the same dictionary block. */
  predicate Matches(d: Data, f: Forth, outer: Stack, shared: bool) {
    f.d.ds == d.ds && f.d.rs == Over(d.rs, outer) && (shared ==> f.d.low == d.low)
  }

  /** If nothing is raised the answer matches; and nothing is if that is `sure`. */
  ghost predicate Agrees(a: Answer, d: Data, outer: Stack, shared: bool, sure: bool) {
    (a.Fine? ==> Matches(d, a.f, outer, shared)) && (sure ==> a.Fine?)
  }

  lemma PrimAgrees(c: Context, p: Prim, d: Data, depth: nat, f: Forth, outer: Stack, shared: bool)
    requires Agreeing(p, shared) && Meaning(c, p, d, depth).Some?
    requires Matches(d, f, outer, shared) && Depth(d.ds) <= DATA_STACK_SIZE
    ensures Agrees(Perform(p, f), Meaning(c, p, d, depth).value, outer, shared, Depth(outer) <= depth)
  {
    hide Meaning, Perform, Matches, Depth;
    if IsUnary(p) {
      UnaryAgrees(c, p, d, depth, f, outer, shared);
    } else if IsBinary(p) {
      BinaryAgrees(c, p, d, depth, f, outer, shared);
    } else if IsReturnWord(p) {
      ReturnAgrees(c, p, d, depth, f, outer, shared);
    } else {
      StackAgrees(c, p, d, depth, f, outer, shared);
    }
  }

  lemma ReturnAgrees(c: Context, p: Prim, d: Data, depth: nat, f: Forth, outer: Stack, shared: bool)
    requires IsReturnWord(p) && Meaning(c, p, d, depth).Some?
    requires Matches(d, f, outer, shared) && Depth(d.ds) <= DATA_STACK_SIZE
    ensures Agrees(Perform(p, f), Meaning(c, p, d, depth).value, outer, shared, Depth(outer) <= depth)
  {
    hide Meaning;
    ReturnIs(c, p, d, depth);
    DepthOver(d.rs, outer);
  }

  /** The stack words, and `@` and `!`. */
  lemma StackAgrees(c: Context, p: Prim, d: Data, depth: nat, f: Forth, outer: Stack, shared: bool)
    requires IsShuffle(p) || (shared && (p == FETCH || p == STOREW))
    requires Meaning(c, p, d, depth).Some?
    requires Matches(d, f, outer, shared) && Depth(d.ds) <= DATA_STACK_SIZE
    ensures Agrees(Perform(p, f), Meaning(c, p, d, depth).value, outer, shared, true)
  {
    hide Meaning, Shuffle;
    if IsShuffle(p) {
      ShuffleIs(c, p, d, depth);
    } else if p == FETCH {
      FetchIs(c, p, d, depth);
    } else {
      StoreIs(c, p, d, depth);
    }
  }

  lemma UnaryAgrees(c: Context, p: Prim, d: Data, depth: nat, f: Forth, outer: Stack, shared: bool)
    requires Agreeing(p, shared) && IsUnary(p) && Meaning(c, p, d, depth).Some?
    requires Matches(d, f, outer, shared) && Depth(d.ds) <= DATA_STACK_SIZE
    ensures Agrees(Perform(p, f), Meaning(c, p, d, depth).value, outer, shared, true)
  {
    hide ShuffleMeaning, ReturnMeaning, DeviceMeaning, FetchMeaning, StoreMeaning, NumberMeaning, WordMeaning, FindMeaning;
  }

  lemma BinaryAgrees(c: Context, p: Prim, d: Data, depth: nat, f: Forth, outer: Stack, shared: bool)
    requires Agreeing(p, shared) && IsBinary(p) && Meaning(c, p, d, depth).Some?
    requires Matches(d, f, outer, shared) && Depth(d.ds) <= DATA_STACK_SIZE
    ensures Agrees(Perform(p, f), Meaning(c, p, d, depth).value, outer, shared, true)
  {
    hide ShuffleMeaning, ReturnMeaning, DeviceMeaning, FetchMeaning, StoreMeaning, NumberMeaning, WordMeaning, FindMeaning;
  }

  // ---- words ----

  /** A program of plain, unambiguous colon words over the kernel's own. */
  predicate Comparable(p: Program, colon: seq<WordSpec>, shared: bool) {
    && Matched(p) && p.words == AllWords(colon)
    && (forall w :: w in colon ==> w.ColonWord?)
    && Unambiguous(p.words) && Plain(p.words, shared)
  }

  /** `ForthService` running word `i`, at its entry. */
  function RunWord(v: Vocabulary, w: WordSpec, f: Forth, limit: nat): Answer
    requires Closed(v) && (w.CodeWord? ==> Shared(w.prim))
  {
    match w
    case CodeWord(_, prim, _) => Perform(prim, f)
    case ColonWord(_, code, _) => RunWords(v, code, f, limit)
  }

  /** Nothing can be raised: the caller's cells are no more than the kernel's, and Python allows a
      nested call for each word that could make one. */
  predicate Sure(i: nat, depth: nat, outer: Stack, limit: nat) { Depth(outer) <= depth && i <= limit }

  lemma {:induction false} WordAgrees(
    p: Program, colon: seq<WordSpec>, i: nat, d: Data, depth: nat, f: Forth, outer: Stack, limit: nat, shared: bool)
    requires Comparable(p, colon, shared) && i < |p.words|
    requires p.words[i].CodeWord? ==> Agreeing(p.words[i].prim, shared)
    requires Bounded(d, depth) && Matches(d, f, outer, shared)
    requires EvalWord(p, i, d, depth).Finished?
    ensures Agrees(RunWord(VocabularyOf(colon), p.words[i], f, limit), EvalWord(p, i, d, depth).d, outer, shared,
                   Sure(i, depth, outer, limit))
    decreases i, 1, 0
  {
    hide Meaning, Perform, RoutineCost, AllWords, VocabularyOf, Unambiguous, Plain, EvalThread, RunWords, TroubleOf,
         TroubleCost;
    match p.words[i]
    case CodeWord(_, prim, _) =>
      PrimAgrees(p.context, prim, d, depth, f, outer, shared);
    case ColonWord(_, code, _) =>
      DepthOver(d.rs, outer);
      ThreadAgrees(p, colon, i, 0, d.(rs := Empty), depth + Depth(d.rs) + 1, f, Over(d.rs, outer), limit, shared);
      EvalThreadBounded(p, i, ItemsOf(code), 0, d.(rs := Empty), depth + Depth(d.rs) + 1);
      assert code[0..] == code;
  }

  lemma {:induction false} ThreadAgrees(
    p: Program, colon: seq<WordSpec>, i: nat, j: nat, d: Data, depth: nat, f: Forth, outer: Stack, limit: nat,
    shared: bool)
    requires Comparable(p, colon, shared) && i < |p.words| && p.words[i].ColonWord? && j <= |p.words[i].words|
    requires Bounded(d, depth) && Matches(d, f, outer, shared)
    requires EvalThread(p, i, ItemsOf(p.words[i].words), j, d, depth).Finished?
    ensures var d' := EvalThread(p, i, ItemsOf(p.words[i].words), j, d, depth).d;
      && Agrees(RunWords(VocabularyOf(colon), p.words[i].words[j..], f, limit), d', outer, shared,
                Sure(i, depth, outer, limit))
    decreases i, 0, |p.words[i].words| - j
  {
    hide EvalWord, AllWords, VocabularyOf, Unambiguous, Plain, Matches, Bounded, Lookup;
    var code := p.words[i].words;
    var v := VocabularyOf(colon);
    if j < |code| {
      var r := Lookup(p.words[..i], code[j]).value;
      Bound(p, i, j, r, shared);
      NameRuns(p, colon, i, code[j], f, limit, shared);
      assert code[j..][0] == code[j] && code[j..][1..] == code[j + 1..];
      if limit > 0 || p.words[r].CodeWord? {
        var deeper := if limit > 0 then limit - 1 else 0;
        WordAgrees(p, colon, r, d, depth, f, outer, deeper, shared);
        var a := RunWord(v, p.words[r], f, deeper);
        if a.Fine? {
          EvalBounded(p, r, d, depth);
          ThreadAgrees(p, colon, i, j + 1, EvalWord(p, r, d, depth).d, depth, a.f, outer, limit, shared);
        }
      }
    }
  }

  /** Looking a name up when it is reached runs the word it was bound to, if Python allows the call. */
  lemma NameRuns(p: Program, colon: seq<WordSpec>, i: nat, name: string, f: Forth, limit: nat, shared: bool)
    requires Comparable(p, colon, shared) && i < |p.words| && p.words[i].ColonWord?
    requires Lookup(p.words[..i], name).Some?
    requires p.words[Lookup(p.words[..i], name).value].CodeWord? ==>
      Shared(p.words[Lookup(p.words[..i], name).value].prim)
    ensures var w, v := p.words[Lookup(p.words[..i], name).value], VocabularyOf(colon);
      RunName(v, name, f, limit)
      == if limit > 0 then RunWord(v, w, f, limit - 1)
         else if w.CodeWord? then RunWord(v, w, f, 0) else Raises(RecursionLimit)
  {
    hide AllWords, VocabularyOf, Unambiguous, Plain, Lookup, Perform, RunWords;
    SameBinding(colon, i, name);
  }

  /** A name in a plain definition is bound to a word both run alike. */
  lemma Bound(p: Program, i: nat, j: nat, r: nat, shared: bool)
    requires Plain(p.words, shared) && i < |p.words| && p.words[i].ColonWord? && j < |p.words[i].words|
    requires Lookup(p.words[..i], p.words[i].words[j]) == Some(r)
    ensures p.words[r].CodeWord? ==> Agreeing(p.words[r].prim, shared)
  {
    assert PlainAt(p.words, i, j, shared);
  }

  // ---- evaluation does not lose its way ----

  /** Where a word the two agree on has no meaning, it is refused something or never ends. */
  lemma NeverBeyond(c: Context, p: Prim, d: Data, depth: nat)
    requires Agreeing(p, false) && Meaning(c, p, d, depth).None?
    requires p == FROMR || p == RFETCH ==> d.rs.Push?
    ensures !TroubleOf(p, d, depth).Beyond?
  {
    hide Meaning, RunsDry, Counted, Depth;
    if !IsShuffle(p) && !IsReturnWord(p) && p != MUL && Depth(d.ds) >= Operands(p) {
      ArithmeticMeans(c, p, d, depth);
    }
  }

  lemma ArithmeticMeans(c: Context, p: Prim, d: Data, depth: nat)
    requires Agreeing(p, false) && !IsShuffle(p) && !IsReturnWord(p) && p != MUL && Depth(d.ds) >= Operands(p)
    ensures Meaning(c, p, d, depth).Some?
  {
    hide ShuffleMeaning, ReturnMeaning, DeviceMeaning, FetchMeaning, StoreMeaning, NumberMeaning, WordMeaning, FindMeaning;
  }

  /** How many of its own return-stack cells a definition holds after a word. */
  lemma MeaningHolds(c: Context, p: Prim, d: Data, depth: nat)
    requires Agreeing(p, false) && Meaning(c, p, d, depth).Some?
    ensures Depth(Meaning(c, p, d, depth).value.rs)
         == if p == TOR then Depth(d.rs) + 1 else if p == FROMR then Depth(d.rs) - 1 else Depth(d.rs)
  {
    hide Shuffle;
  }

  /** The outcomes of a plain and balanced program: nothing but an end, an error, or none at all. */
  predicate Settled(o: Outcome) { o.Finished? || o.Raised? || o.Endless? }

  lemma {:induction false} WordSettles(p: Program, colon: seq<WordSpec>, i: nat, d: Data, depth: nat)
    requires Comparable(p, colon, false) && Balanced(p.words) && i < |p.words|
    requires p.words[i].CodeWord? ==> Agreeing(p.words[i].prim, false)
    requires p.words[i].CodeWord? && p.words[i].prim in {FROMR, RFETCH} ==> d.rs.Push?
    ensures Settled(EvalWord(p, i, d, depth))
    ensures EvalWord(p, i, d, depth).Finished? ==>
      Depth(EvalWord(p, i, d, depth).d.rs)
      == if IsPrim(p, i, TOR) then Depth(d.rs) + 1 else if IsPrim(p, i, FROMR) then Depth(d.rs) - 1 else Depth(d.rs)
    decreases i, 1, 0
  {
    hide Meaning, RoutineCost, AllWords, Unambiguous, Plain, Balanced, EvalThread, TroubleOf, TroubleCost, Lookup;
    match p.words[i]
    case CodeWord(_, prim, _) =>
      if Meaning(p.context, prim, d, depth).Some? {
        MeaningHolds(p.context, prim, d, depth);
      } else {
        NeverBeyond(p.context, prim, d, depth);
      }
    case ColonWord(_, code, _) =>
      assert BalancedFrom(p.words, i, 0, 0) by { BalancedAt(p.words, i); }
      ThreadSettles(p, colon, i, 0, d.(rs := Empty), depth + Depth(d.rs) + 1);
  }

  lemma BalancedAt(words: seq<WordSpec>, i: nat)
    requires Balanced(words) && i < |words| && words[i].ColonWord?
    ensures BalancedFrom(words, i, 0, 0)
  {
    hide BalancedFrom;
  }

  lemma {:induction false} ThreadSettles(p: Program, colon: seq<WordSpec>, i: nat, j: nat, d: Data, depth: nat)
    requires Comparable(p, colon, false) && Balanced(p.words) && i < |p.words| && p.words[i].ColonWord?
    requires j <= |p.words[i].words| && BalancedFrom(p.words, i, j, Depth(d.rs)) && depth > 0
    ensures Settled(EvalThread(p, i, ItemsOf(p.words[i].words), j, d, depth))
    decreases i, 0, |p.words[i].words| - j
  {
    hide EvalWord, AllWords, Unambiguous, Plain, Balanced, Lookup;
    var code := p.words[i].words;
    if j == |code| {
      ExitIsBound(p, colon, i, false);
    } else {
      var r := Lookup(p.words[..i], code[j]).value;
      Bound(p, i, j, r, false);
      WordSettles(p, colon, r, d, depth);
      if EvalWord(p, r, d, depth).Finished? {
        ThreadSettles(p, colon, i, j + 1, EvalWord(p, r, d, depth).d, depth);
      }
    }
  }

  lemma ExitIsBound(p: Program, colon: seq<WordSpec>, i: nat, shared: bool)
    requires Comparable(p, colon, shared) && i < |p.words| && p.words[i].ColonWord?
    ensures Lookup(p.words[..i], EXIT_WORD) == Some(1) && IsPrim(p, 1, EXIT)
  {
    hide WordName, Unambiguous, Plain, Lookup, AllWords;
    ExitAndBye();
    AllWordsAt(colon, i);
    KernelWordBound(colon, 1, i);
  }

  // ---- the two machines ----

  const BYE_WORD := "BYE"

  /** Call one word, then stop. */
  function CallOf(name: string): seq<ThreadItem> { [WordReference(name), WordReference(BYE_WORD)] }

  /** What evaluating a call that is followed by `BYE` comes to. */
  lemma CallEvaluates(p: Program, colon: seq<WordSpec>, name: string, d: Data, depth: nat, shared: bool)
    requires Comparable(p, colon, shared)
    requires Lookup(p.words, name).Some? && p.words[Lookup(p.words, name).value].ColonWord?
    ensures var o := EvalWord(p, Lookup(p.words, name).value, d, depth);
      EvalThread(p, |p.words|, CallOf(name), 0, d, depth)
      == if o.Finished? then Stopped(o.d, o.cost + 5, false) else o
  {
    hide WordName, Unambiguous, Plain, Lookup, AllWords, Meaning, RoutineCost;
    var n := |p.words|;
    assert p.words[..n] == p.words;
    AllWordsSize(colon);
    ExitAndBye();
    KernelWordBound(colon, 2, n);
    var o := EvalWord(p, Lookup(p.words, name).value, d, depth);
    if o.Finished? {
      assert EvalThread(p, n, CallOf(name), 1, o.d, depth) == EvalWord(p, 2, o.d, depth);
    }
  }

  /** Everything the two need to be compared on a call of `name`, the kernel booted as `m`. */
  ghost predicate Comparison(asm: Assembly, colon: seq<WordSpec>, name: string, m: M.State, shared: bool) {
    var words := AllWords(colon);
    && KernelLoaded(asm) && (forall w :: w in colon ==> w.ColonWord?)
    && Unambiguous(words) && Plain(words, shared) && Accepted(words, CallOf(name)) && Booted(words, m)
    && Lookup(words, name).Some? && words[Lookup(words, name).value].ColonWord?
    && ImageIn(asm, words, CallOf(name), m.mem[..DICTIONARY_SIZE])
  }

  /** `ForthService`'s answer to `_execute_colon(name)`. */
  function Executed(colon: seq<WordSpec>, name: string, f: Forth, limit: nat): Answer
    requires forall w :: w in colon ==> w.ColonWord?
    requires Lookup(AllWords(colon), name).Some? && AllWords(colon)[Lookup(AllWords(colon), name).value].ColonWord?
  {
    RunWords(VocabularyOf(colon), AllWords(colon)[Lookup(AllWords(colon), name).value].words, f, limit)
  }

  lemma ProgramComparable(asm: Assembly, colon: seq<WordSpec>, boot: seq<ThreadItem>, shared: bool)
    requires forall w :: w in colon ==> w.ColonWord?
    requires Unambiguous(AllWords(colon)) && Plain(AllWords(colon), shared)
    ensures Comparable(ImageProgram(asm, AllWords(colon), boot), colon, shared)
  {
    hide Unambiguous, Plain, AllWords;
  }

  /** What evaluation comes to, what the emulator halts on, and what `_execute_colon` leaves. */
  lemma CallAgrees(asm: Assembly, colon: seq<WordSpec>, name: string, m: M.State, f: Forth, limit: nat, shared: bool)
    requires Comparison(asm, colon, name, m, shared)
    requires f.d.ds == DataStack(m) && (shared ==> f.d.low == m.mem[..DICTIONARY_SIZE])
    requires BootOutcome(asm, AllWords(colon), CallOf(name), m).Stopped?
    requires EvalWord(ImageProgram(asm, AllWords(colon), CallOf(name)), Lookup(AllWords(colon), name).value,
                      View(m).d.(rs := Empty), Depth(ReturnStack(m))).Finished?
    ensures var o := BootOutcome(asm, AllWords(colon), CallOf(name), m);
      && !o.nested
      && Agrees(Executed(colon, name, f, limit), o.d.(rs := Empty), f.d.rs, shared,
                Sure(|AllWords(colon)|, Depth(ReturnStack(m)), f.d.rs, limit))
  {
    hide KernelLoaded, AllWords, VocabularyOf, Unambiguous, Plain, Lookup, Accepted, ImageIn, EvalThread, EvalWord,
         RunWords, EntriesOf, CallOf;
    var words := AllWords(colon);
    var p := ImageProgram(asm, words, CallOf(name));
    var d := View(m).d.(rs := Empty);
    var depth := Depth(ReturnStack(m));
    var i := Lookup(words, name).value;
    ProgramComparable(asm, colon, CallOf(name), shared);
    CallEvaluates(p, colon, name, d, depth, shared);
    StackAtDepth(m.mem, m.dsp, DATA_STACK_BASE);
    StackAtDepth(m.mem, m.rsp, RETURN_STACK_BASE);
    WordAgrees(p, colon, i, d, depth, f, f.d.rs, limit, shared);
    FinishedKeeps(p, i, d, depth);
  }

  /** A colon word hands its caller's return-stack cells back. */
  lemma FinishedKeeps(p: Program, i: nat, d: Data, depth: nat)
    requires Matched(p) && i < |p.words| && p.words[i].ColonWord? && EvalWord(p, i, d, depth).Finished?
    ensures EvalWord(p, i, d, depth).d.rs == d.rs
  {
    hide EvalThread;
  }

  /** What the two leave is the same: the data stack, `ForthService`'s own return stack as it was, and
      memory if it is shared. */
  ghost predicate SameEnd(m: M.State, a: Answer, f: Forth, shared: bool) {
    a.Fine? ==>
      && M.Sound(m) && a.f.d.ds == DataStack(m) && a.f.d.rs == f.d.rs
      && (shared ==> a.f.d.low == m.mem[..DICTIONARY_SIZE])
  }

  /** Two implementations, one meaning. For every image of unambiguous, plain and balanced colon words
      that use no memory words, and every `ForthService` with the same data stack, whatever its memory:
      whenever the kernel's run of a call of a colon word halts, and `_execute_colon` does not raise,
      the two leave the same data stack. It does not raise if its return stack is no fuller and Python
      allows one nested call for each word of the image. */
  lemma ImplementationsAgree(
    asm: Assembly, colon: seq<WordSpec>, name: string, m: M.State, maxSteps: nat, f: Forth, limit: nat)
    requires Comparison(asm, colon, name, m, false) && Balanced(AllWords(colon))
    requires M.Run(asm.program, m, maxSteps).Ok?
    requires f.d.ds == DataStack(m)
    ensures SameEnd(M.Run(asm.program, m, maxSteps).value, Executed(colon, name, f, limit), f, false)
    ensures Sure(|AllWords(colon)|, Depth(ReturnStack(m)), f.d.rs, limit) ==> Executed(colon, name, f, limit).Fine?
  {
    hide KernelLoaded, AllWords, VocabularyOf, Unambiguous, Plain, Balanced, Lookup, Accepted, ImageIn, HaltsAs, RaisesAs,
         RunNeeds, NeverStops, EvalThread, EvalWord, RunWords, EntriesOf, M.Run;
    var words := AllWords(colon);
    var p := ImageProgram(asm, words, CallOf(name));
    var d := View(m).d.(rs := Empty);
    var i := Lookup(words, name).value;
    ProgramComparable(asm, colon, CallOf(name), false);
    CallEvaluates(p, colon, name, d, Depth(ReturnStack(m)), false);
    WordSettles(p, colon, i, d, Depth(ReturnStack(m)));
    CompilerCorrect(asm, words, CallOf(name), m);
    RunHalts(asm, words, CallOf(name), m, maxSteps);
    CallAgrees(asm, colon, name, m, f, limit, false);
  }

  /** When a run returns, evaluation ends in a `BYE` or loses its way, and in the first case the run ends
      where evaluation says. */
  lemma RunHalts(asm: Assembly, words: seq<WordSpec>, boot: seq<ThreadItem>, m: M.State, maxSteps: nat)
    requires M.Sound(m) && Comports(asm.program, m, 3, BootOutcome(asm, words, boot, m), ImageTop(words, boot))
    requires M.Run(asm.program, m, maxSteps).Ok?
    ensures var o := BootOutcome(asm, words, boot, m);
      && (o.Stopped? || o.Finished? || o.Lost?)
      && (o.Stopped? ==>
            var end := M.Run(asm.program, m, maxSteps).value;
            M.Sound(end) && DataStack(end) == o.d.ds && end.mem[..DICTIONARY_SIZE] == o.d.low)
  {
    hide BootOutcome, M.Run, M.Steps;
  }

  /** With memory words, for two that hold the same in memory to begin with: whenever evaluation does not
      lose its way, that is, `@` and `!` stay inside the block and `!` clear of the image. */
  lemma ImplementationsShare(
    asm: Assembly, colon: seq<WordSpec>, name: string, m: M.State, maxSteps: nat, f: Forth, limit: nat)
    requires Comparison(asm, colon, name, m, true)
    requires M.Run(asm.program, m, maxSteps).Ok? && !BootOutcome(asm, AllWords(colon), CallOf(name), m).Lost?
    requires f.d.ds == DataStack(m) && f.d.low == m.mem[..DICTIONARY_SIZE]
    ensures SameEnd(M.Run(asm.program, m, maxSteps).value, Executed(colon, name, f, limit), f, true)
    ensures Sure(|AllWords(colon)|, Depth(ReturnStack(m)), f.d.rs, limit) ==> Executed(colon, name, f, limit).Fine?
  {
    hide KernelLoaded, AllWords, VocabularyOf, Unambiguous, Plain, Lookup, Accepted, ImageIn, HaltsAs, RaisesAs,
         RunNeeds, NeverStops, EvalThread, EvalWord, RunWords, EntriesOf, M.Run;
    var words := AllWords(colon);
    var p := ImageProgram(asm, words, CallOf(name));
    var d := View(m).d.(rs := Empty);
    ProgramComparable(asm, colon, CallOf(name), true);
    CallEvaluates(p, colon, name, d, Depth(ReturnStack(m)), true);
    NeverStopsItself(p, colon, Lookup(words, name).value, d, Depth(ReturnStack(m)), true);
    CompilerCorrect(asm, words, CallOf(name), m);
    RunHalts(asm, words, CallOf(name), m, maxSteps);
    CallAgrees(asm, colon, name, m, f, limit, true);
  }

  /** A plain word does not stop the machine. */
  lemma {:induction false} NeverStopsItself(p: Program, colon: seq<WordSpec>, i: nat, d: Data, depth: nat, shared: bool)
    requires Comparable(p, colon, shared) && i < |p.words|
    requires p.words[i].CodeWord? ==> Agreeing(p.words[i].prim, shared)
    ensures !EvalWord(p, i, d, depth).Stopped?
    decreases i, 1, 0
  {
    hide Meaning, RoutineCost, AllWords, Unambiguous, Plain, EvalThread, TroubleOf, TroubleCost;
    if p.words[i].ColonWord? {
      ThreadNeverStops(p, colon, i, 0, d.(rs := Empty), depth + Depth(d.rs) + 1, shared);
    }
  }

  lemma {:induction false} ThreadNeverStops(
    p: Program, colon: seq<WordSpec>, i: nat, j: nat, d: Data, depth: nat, shared: bool)
    requires Comparable(p, colon, shared) && i < |p.words| && p.words[i].ColonWord? && j <= |p.words[i].words|
    ensures !EvalThread(p, i, ItemsOf(p.words[i].words), j, d, depth).Stopped?
    decreases i, 0, |p.words[i].words| - j
  {
    hide EvalWord, AllWords, Unambiguous, Plain, Lookup;
    var code := p.words[i].words;
    if j == |code| {
      ExitIsBound(p, colon, i, shared);
    } else if Lookup(p.words[..i], code[j]).Some? {
      var r := Lookup(p.words[..i], code[j]).value;
      Bound(p, i, j, r, shared);
      NeverStopsItself(p, colon, r, d, depth, shared);
      if EvalWord(p, r, d, depth).Finished? {
        ThreadNeverStops(p, colon, i, j + 1, EvalWord(p, r, d, depth).d, depth, shared);
      }
    }
  }
}
