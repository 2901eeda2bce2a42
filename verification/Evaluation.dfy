/** What a program means: recursive evaluation of its definitions, every name bound to the newest
    word of that name installed before it. No machine, no threads, no return addresses. What goes
    wrong is part of the meaning: which error is raised and when, or that there is no end. */
module Evaluation {
  import opened Wrappers
  import opened Isa
  import opened Cpu
  import opened Layout
  import opened Stacks
  import opened AbstractMachine
  import opened DictionaryShape
  import opened Words
  import opened Primitives
  import opened Troubles

  /** `CodeWordDto` and `ColonWordDto`. */
  datatype WordSpec =
    | CodeWord(name: string, prim: Prim, immediate: bool)
    | ColonWord(name: string, words: seq<string>, immediate: bool)

  /** `WordReferenceDto` and `LiteralCellDto`. */
  datatype ThreadItem = WordReference(name: string) | LiteralCell(value: int)

  /** The installed words, oldest first, and the dictionary they make up. */
  datatype Program = Program(words: seq<WordSpec>, context: Context)

  predicate Matched(p: Program) { |p.context.dict| == |p.words| }

  /** The newest of `words` with this name. */
  function Lookup(words: seq<WordSpec>, name: string): (r: Option<nat>)
    ensures r.Some? ==> r.value < |words| && words[r.value].name == name
    ensures r.Some? ==> forall k :: r.value < k < |words| ==> words[k].name != name
    ensures r.None? ==> forall k :: 0 <= k < |words| ==> words[k].name != name
  {
    if words == [] then None
    else if words[|words| - 1].name == name then Some(|words| - 1)
    else Lookup(words[..|words| - 1], name)
  }

  const EXIT_WORD := "EXIT"

  /** The thread of a colon word: its words, then `EXIT`. */
  function ItemsOf(words: seq<string>): (items: seq<ThreadItem>)
    ensures |items| == |words| + 1
  {
    seq(|words| + 1, i requires 0 <= i <= |words| => WordReference(if i < |words| then words[i] else EXIT_WORD))
  }

  /** The cell a thread item becomes when the first `limit` words are installed. */
  function CellOf(p: Program, limit: nat, item: ThreadItem): Option<int>
    requires Matched(p) && limit <= |p.words|
  {
    match item
    case LiteralCell(v) => Some(v)
    case WordReference(name) =>
      match Lookup(p.words[..limit], name)
      case None => None
      case Some(r) => Some(Cfa(p.context.dict, r))
  }

  /** How evaluation ends, and after how many machine steps: at its end; in a `BYE` (`nested` when
      inside a called definition); in an error, raised by the step after those counted; never; or
      where evaluation has nothing to say any more. */
  datatype Outcome =
    | Finished(d: Data, cost: nat) | Stopped(d: Data, cost: nat, nested: bool)
    | Raised(fault: Fault, cost: nat) | Endless | Lost(cost: nat)

  function Delayed(n: nat, o: Outcome): Outcome {
    match o
    case Finished(d, k) => Finished(d, n + k)
    case Stopped(d, k, nested) => Stopped(d, n + k, nested)
    case Raised(fault, k) => Raised(fault, n + k)
    case Endless => Endless
    case Lost(k) => Lost(n + k)
  }

  /** A CODE word called where it has no meaning. */
  function Troubled(c: Context, p: Prim, d: Data, depth: nat): Outcome {
    match TroubleOf(p, d, depth)
    case Hits(fault) => Raised(fault, 4 + TroubleCost(c, p, d))
    case Forever => Endless
    case Beyond => Lost(4)
  }

  /** Evaluate word `i`: `d.rs` holds the calling definition's own return-stack cells, and `depth`
      more cells lie below them. */
  function EvalWord(p: Program, i: nat, d: Data, depth: nat): Outcome
    requires Matched(p) && i < |p.words|
    decreases i, 1, 0
  {
    match p.words[i]
    case CodeWord(_, prim, _) =>
      if prim == BYE then Stopped(d, 5, false)
      else
        (match Meaning(p.context, prim, d, depth)
         case None => Troubled(p.context, prim, d, depth)
         case Some(d') => Finished(d', 4 + RoutineCost(p.context, prim, d)))
    case ColonWord(_, words, _) =>
      if depth + Depth(d.rs) >= RETURN_STACK_SIZE then Raised(FullReturn, 4)
      else
        match EvalThread(p, i, ItemsOf(words), 0, d.(rs := Empty), depth + Depth(d.rs) + 1)
        case Finished(d', n) => Finished(d'.(rs := d.rs), 9 + n)
        case Stopped(d', n, _) => Stopped(d', 9 + n, true)
        case other => Delayed(9, other)
  }

  predicate IsPrim(p: Program, r: nat, prim: Prim)
    requires r < |p.words|
  {
    p.words[r].CodeWord? && p.words[r].prim == prim
  }

  /** Evaluate `items[j..]`, whose names are bound among the first `limit` words. A definition must
      leave no cell of its own on the return stack when it exits. */
  function EvalThread(p: Program, limit: nat, items: seq<ThreadItem>, j: nat, d: Data, depth: nat): Outcome
    requires Matched(p) && limit <= |p.words| && j <= |items|
    decreases limit, 0, |items| - j
  {
    if j == |items| || items[j].LiteralCell? then Lost(0)
    else
      match Lookup(p.words[..limit], items[j].name)
      case None => Lost(0)
      case Some(r) =>
        if IsPrim(p, r, EXIT) then
          if d.rs.Push? then Lost(4) else if depth == 0 then Raised(EmptyReturn, 4) else Finished(d, 6)
        else if IsPrim(p, r, LIT) then
          if j + 1 == |items| then Lost(4)
          else
            (match CellOf(p, limit, items[j + 1])
             case None => Lost(4)
             case Some(v) =>
               if Depth(d.ds) >= DATA_STACK_SIZE then Raised(FullData, 5)
               else Delayed(8, EvalThread(p, limit, items, j + 2, d.(ds := Push(v, d.ds)), depth)))
        else
          match EvalWord(p, r, d, depth)
          case Finished(d', n) => Delayed(n, EvalThread(p, limit, items, j + 1, d', depth))
          case other => other
  }

  // ---- what evaluation keeps ----

  /** The cells below `top` are those of `low`. */
  predicate Intact(top: int, low: seq<int>, low': seq<int>) {
    |low'| == |low| && forall a :: 0 <= a < top && a < |low| ==> low'[a] == low[a]
  }

  predicate Bounded(d: Data, depth: nat) {
    Depth(d.ds) <= DATA_STACK_SIZE && Depth(d.rs) + depth <= RETURN_STACK_SIZE
  }

  /** What `p` may do to `d`: no cell below `top` changes, stacks that fit still do, and only `>R` adds
      to the return stack. */
  predicate Keeps(top: int, p: Prim, d: Data, depth: nat, o: Option<Data>) {
    o.Some? ==>
      && Intact(top, d.low, o.value.low)
      && (Bounded(d, depth) ==> Bounded(o.value, depth))
      && (p != TOR ==> Depth(o.value.rs) <= Depth(d.rs))
  }

  lemma StackMeaningsKeep(c: Context, p: Prim, d: Data, depth: nat)
    ensures Keeps(c.top, p, d, depth, ShuffleMeaning(p, d))
    ensures IsReturnWord(p) ==> Keeps(c.top, p, d, depth, ReturnMeaning(p, d, depth))
    ensures Keeps(c.top, p, d, depth, DeviceMeaning(p, d))
  {
    hide Shuffle;
  }

  lemma MemoryMeaningsKeep(c: Context, p: Prim, d: Data, depth: nat)
    requires d.ds.Push?
    ensures Keeps(c.top, p, d, depth, FetchMeaning(d, d.ds.top, d.ds.rest))
    ensures Keeps(c.top, p, d, depth, StoreMeaning(c, d, d.ds.top, d.ds.rest))
  {
    assert Depth(d.ds) == 1 + Depth(d.ds.rest);
  }

  lemma TextMeaningsKeep(c: Context, p: Prim, d: Data, depth: nat)
    requires d.ds.Push?
    ensures Keeps(c.top, p, d, depth, NumberMeaning(d, d.ds.top, d.ds.rest))
    ensures Keeps(c.top, p, d, depth, WordMeaning(c, d, d.ds.top, d.ds.rest))
    ensures Keeps(c.top, p, d, depth, FindMeaning(c, d, d.ds.top, d.ds.rest))
  {
    hide ParseNumber, NextToken, Found, CountedText;
  }

  lemma ArithmeticMeaningKeeps(c: Context, p: Prim, d: Data, depth: nat)
    requires d.ds.Push?
    ensures Keeps(c.top, p, d, depth, ArithmeticMeaning(p, d, d.ds.top, d.ds.rest))
  {
    hide Unary, Binary;
    assert Depth(d.ds) == 1 + Depth(d.ds.rest);
  }

  /** No word changes a cell below the first one programs may store to, or overfills a stack. */
  lemma MeaningKeeps(c: Context, p: Prim, d: Data, depth: nat)
    ensures Keeps(c.top, p, d, depth, Meaning(c, p, d, depth))
  {
    hide ShuffleMeaning, ReturnMeaning, DeviceMeaning, FetchMeaning, StoreMeaning, NumberMeaning, WordMeaning,
         FindMeaning, ArithmeticMeaning, Intact, Bounded;
    StackMeaningsKeep(c, p, d, depth);
    if d.ds.Push? {
      MemoryMeaningsKeep(c, p, d, depth);
      TextMeaningsKeep(c, p, d, depth);
      ArithmeticMeaningKeeps(c, p, d, depth);
    }
  }

  predicate KeepsBlock(p: Program, d: Data, o: Outcome) {
    match o
    case Finished(d', _) => Intact(p.context.top, d.low, d'.low)
    case Stopped(d', _, _) => Intact(p.context.top, d.low, d'.low)
    case _ => true
  }

  /** Evaluation never changes the dictionary. */
  lemma {:induction false} EvalIntact(p: Program, i: nat, d: Data, depth: nat)
    requires Matched(p) && i < |p.words|
    ensures KeepsBlock(p, d, EvalWord(p, i, d, depth))
    decreases i, 1, 0
  {
    hide Meaning, RoutineCost, EvalThread;
    match p.words[i]
    case CodeWord(_, prim, _) =>
      if Meaning(p.context, prim, d, depth).Some? {
        MeaningKeeps(p.context, prim, d, depth);
      }
    case ColonWord(_, words, _) =>
      EvalThreadIntact(p, i, ItemsOf(words), 0, d.(rs := Empty), depth + Depth(d.rs) + 1);
  }

  lemma {:induction false} EvalThreadIntact(
    p: Program, limit: nat, items: seq<ThreadItem>, j: nat, d: Data, depth: nat)
    requires Matched(p) && limit <= |p.words| && j <= |items|
    ensures KeepsBlock(p, d, EvalThread(p, limit, items, j, d, depth))
    decreases limit, 0, |items| - j
  {
    hide Meaning, EvalWord;
    if j < |items| && items[j].WordReference? && Lookup(p.words[..limit], items[j].name).Some? {
      var r := Lookup(p.words[..limit], items[j].name).value;
      if IsPrim(p, r, EXIT) {
      } else if IsPrim(p, r, LIT) {
        if j + 1 < |items| && CellOf(p, limit, items[j + 1]).Some? {
          EvalThreadIntact(p, limit, items, j + 2, d.(ds := Push(CellOf(p, limit, items[j + 1]).value, d.ds)), depth);
        }
      } else {
        EvalIntact(p, r, d, depth);
        match EvalWord(p, r, d, depth)
        case Finished(d', n) => EvalThreadIntact(p, limit, items, j + 1, d', depth);
        case _ =>
      }
    }
  }

  /** Evaluation never overfills a stack, and a thread that exits leaves nothing of its own. */
  lemma {:induction false} EvalBounded(p: Program, i: nat, d: Data, depth: nat)
    requires Matched(p) && i < |p.words| && Bounded(d, depth) && EvalWord(p, i, d, depth).Finished?
    ensures Bounded(EvalWord(p, i, d, depth).d, depth)
    decreases i, 1, 0
  {
    hide Meaning, RoutineCost, EvalThread, TroubleOf, TroubleCost;
    match p.words[i]
    case CodeWord(_, prim, _) => MeaningKeeps(p.context, prim, d, depth);
    case ColonWord(_, words, _) =>
      EvalThreadBounded(p, i, ItemsOf(words), 0, d.(rs := Empty), depth + Depth(d.rs) + 1);
  }

  lemma {:induction false} EvalThreadBounded(
    p: Program, limit: nat, items: seq<ThreadItem>, j: nat, d: Data, depth: nat)
    requires Matched(p) && limit <= |p.words| && j <= |items| && Bounded(d, depth)
    requires EvalThread(p, limit, items, j, d, depth).Finished?
    ensures Bounded(EvalThread(p, limit, items, j, d, depth).d, depth)
    ensures EvalThread(p, limit, items, j, d, depth).d.rs.Empty?
    decreases limit, 0, |items| - j
  {
    hide Meaning, EvalWord;
    var r := Lookup(p.words[..limit], items[j].name).value;
    if IsPrim(p, r, EXIT) {
    } else if IsPrim(p, r, LIT) {
      EvalThreadBounded(p, limit, items, j + 2, d.(ds := Push(CellOf(p, limit, items[j + 1]).value, d.ds)), depth);
    } else {
      EvalBounded(p, r, d, depth);
      EvalThreadBounded(p, limit, items, j + 1, EvalWord(p, r, d, depth).d, depth);
    }
  }

  // ---- the kernel's own words in a boot thread ----

  /** The newest word of this name is the kernel's own. */
  predicate Unshadowed(words: seq<WordSpec>, name: string, prim: Prim) {
    var r := Lookup(words, name);
    r.Some? && words[r.value].CodeWord? && words[r.value].prim == prim
  }

  /** One CODE word of a boot thread. */
  lemma CodeWordEvaluates(p: Program, items: seq<ThreadItem>, j: nat, d: Data, depth: nat, prim: Prim)
    requires Matched(p) && j < |items| && items[j].WordReference? && Unshadowed(p.words, items[j].name, prim)
    requires prim != EXIT && prim != LIT
    ensures EvalThread(p, |p.words|, items, j, d, depth)
         == if prim == BYE then Stopped(d, 5, false)
            else if Meaning(p.context, prim, d, depth).None? then Troubled(p.context, prim, d, depth)
            else Delayed(4 + RoutineCost(p.context, prim, d),
                         EvalThread(p, |p.words|, items, j + 1, Meaning(p.context, prim, d, depth).value, depth))
  {
    hide Meaning, RoutineCost, Lookup, TroubleOf, TroubleCost;
    assert p.words[..|p.words|] == p.words;
  }

  /** A `LIT` of a boot thread, with room for its literal. */
  lemma LiteralEvaluates(p: Program, items: seq<ThreadItem>, j: nat, d: Data, depth: nat, v: int)
    requires Matched(p) && j + 1 < |items| && items[j].WordReference? && Unshadowed(p.words, items[j].name, LIT)
    requires items[j + 1] == LiteralCell(v) && Depth(d.ds) < DATA_STACK_SIZE
    ensures EvalThread(p, |p.words|, items, j, d, depth)
         == Delayed(8, EvalThread(p, |p.words|, items, j + 2, d.(ds := Push(v, d.ds)), depth))
  {
    hide Lookup;
    assert p.words[..|p.words|] == p.words;
  }
}
