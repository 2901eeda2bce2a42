/** Every way a kernel word can fail, by the words' names: at which step, and with which error. */
module KernelFaults {
  import opened Wrappers
  import opened Isa
  import opened Cpu
  import opened Layout
  import opened Stacks
  import opened AbstractMachine
  import opened KernelSource
  import opened KernelLayout
  import opened DictionaryShape
  import opened Words
  import opened Primitives
  import opened Troubles
  import opened Evaluation
  import opened Building
  import opened Correctness
  import opened Separation
  import opened EndToEnd
  import opened KernelBuilder
  import opened Images
  import opened NameTable
  import opened KernelWords
  import opened KernelTexts
  import opened RoundTrip
  import M = Machine

  // ---- operands missing ----

  lemma OneNeeded(c: Context, p: Prim, d: Data, depth: nat)
    requires d.ds.Empty? && Operands(p) >= 1
    ensures Meaning(c, p, d, depth).None?
  {
    hide NumberMeaning, WordMeaning, FindMeaning, FetchMeaning, StoreMeaning, ArithmeticMeaning;
  }

  lemma TwoNeeded(c: Context, p: Prim, d: Data, depth: nat)
    requires d.ds.Push? && d.ds.rest.Empty? && Operands(p) >= 2
    ensures Meaning(c, p, d, depth).None?
  {
    hide NumberMeaning, WordMeaning, FindMeaning, FetchMeaning, ReturnMeaning, DeviceMeaning;
    if IsShuffle(p) {
      ShuffleIs(c, p, d, depth);
    } else if p == STOREW || p == CSTOREW {
      StoreIs(c, p, d, depth);
    } else {
      PairsOnly(p, d.ds.top);
    }
  }

  lemma PairsOnly(p: Prim, a: int)
    requires Operands(p) >= 2
    ensures Unary(p, a).None? && !(p in {NUMBER, WORD, FIND, FETCH, CFETCH}) && !IsReturnWord(p) && !IsDeviceWord(p)
  {
  }

  lemma ThreeNeeded(c: Context, p: Prim, d: Data, depth: nat)
    requires d.ds.Push? && d.ds.rest.Push? && d.ds.rest.rest.Empty? && Operands(p) >= 3
    ensures Meaning(c, p, d, depth).None?
  {
    hide Meaning;
    ShuffleIs(c, p, d, depth);
  }

  lemma TooFewMeans(c: Context, p: Prim, d: Data, depth: nat)
    requires Depth(d.ds) < Operands(p)
    ensures Meaning(c, p, d, depth).None?
  {
    hide Meaning, Operands;
    OperandsAtMost(p);
    if d.ds.Empty? {
      OneNeeded(c, p, d, depth);
    } else if d.ds.rest.Empty? {
      TwoNeeded(c, p, d, depth);
    } else if d.ds.rest.rest.Empty? {
      ThreeNeeded(c, p, d, depth);
    } else {
      ThreeOrMore(d.ds);
    }
  }

  lemma ThreeOrMore(s: Stack)
    requires s.Push? && s.rest.Push? && s.rest.rest.Push?
    ensures Depth(s) >= 3
  {
    assert Depth(s.rest) >= 2;
  }

  lemma OperandsAtMost(p: Prim)
    ensures Operands(p) <= 3 && (p in {LIT, EXIT, BYE} ==> Operands(p) == 0)
  {
  }

  lemma TooFewTroubles(c: Context, p: Prim, d: Data, depth: nat)
    requires Depth(d.ds) < Operands(p)
    ensures TroubleOf(p, d, depth) == Hits(EmptyData) && TroubleCost(c, p, d) == Depth(d.ds) && !(p in {LIT, EXIT, BYE})
  {
    hide Operands;
    OperandsAtMost(p);
  }

  /** The operands there are get popped, one step each; then comes the underflow. */
  lemma Underflows(name: string, p: Prim, m: M.State)
    requires BootedWith(CallThread(name), m) && M.Sound(m) && Names(name, p) && Depth(DataStack(m)) < Operands(p)
    ensures Raising(m, 7 + Depth(DataStack(m)), EmptyData)
  {
    hide Names, BootedWith, Raising, Meaning, TroubleOf, TroubleCost, Operands, ImageProgram, AllWords, Kernel;
    StartIs(m);
    var c := ProgramFor(CallThread(name)).context;
    TooFewMeans(c, p, Start(m), Depth(ReturnStack(m)));
    TooFewTroubles(c, p, Start(m), Depth(ReturnStack(m)));
    CallTroubles(name, p, m);
  }

  lemma OperandsCounted(p: Prim)
    ensures p in {DUP, DROP, NEGATE, ABS, ONEPLUS, ONEMINUS, ZEROEQ, ZEROLT, BITINVERT} ==> Operands(p) == 1
    ensures p in {FETCH, CFETCH, TOR, EMIT, NUMBER, WORD, FIND} ==> Operands(p) == 1
    ensures p in {SWAP, OVER, NIP, TUCK, PLUS, MINUS, MUL, BITAND, BITOR, STOREW, CSTOREW} ==> Operands(p) == 2
    ensures p in {EQUALS, NOTEQUALS, LESSTHAN, GREATERTHAN} ==> Operands(p) == 2
    ensures p in {ROT, NROT} ==> Operands(p) == 3
  {
  }

  lemma StackWordsNeed(name: string, m: M.State)
    requires BootedWith(CallThread(name), m) && M.Sound(m)
    ensures name in ["DUP", "DROP"] && Depth(DataStack(m)) < 1 ==> Raising(m, 7 + Depth(DataStack(m)), EmptyData)
    ensures name in ["SWAP", "OVER", "NIP", "TUCK"] && Depth(DataStack(m)) < 2 ==> Raising(m, 7 + Depth(DataStack(m)), EmptyData)
    ensures name in ["ROT", "-ROT"] && Depth(DataStack(m)) < 3 ==> Raising(m, 7 + Depth(DataStack(m)), EmptyData)
  {
    hide Names, BootedWith, Raising, Operands, AllWords, Kernel;
    StackNames();
    if name in ["DUP", "DROP"] && Depth(DataStack(m)) < 1 {
      var p := if name == "DUP" then DUP else DROP;
      assert Operands(p) == 1 by { OperandsCounted(p); }
      Underflows(name, p, m);
    }
    if name in ["SWAP", "OVER", "NIP", "TUCK"] && Depth(DataStack(m)) < 2 {
      var p := if name == "SWAP" then SWAP else if name == "OVER" then OVER else if name == "NIP" then NIP else TUCK;
      assert Operands(p) == 2 by { OperandsCounted(p); }
      Underflows(name, p, m);
    }
    if name in ["ROT", "-ROT"] && Depth(DataStack(m)) < 3 {
      var p := if name == "ROT" then ROT else NROT;
      assert Operands(p) == 3 by { OperandsCounted(p); }
      Underflows(name, p, m);
    }
  }

  lemma ArithmeticWordsNeed(name: string, m: M.State)
    requires BootedWith(CallThread(name), m) && M.Sound(m)
    ensures name in ["NEGATE", "ABS", "1+", "1-"] && Depth(DataStack(m)) < 1 ==> Raising(m, 7 + Depth(DataStack(m)), EmptyData)
    ensures name in ["+", "-", "*"] && Depth(DataStack(m)) < 2 ==> Raising(m, 7 + Depth(DataStack(m)), EmptyData)
  {
    hide Names, BootedWith, Raising, Operands, AllWords, Kernel;
    ArithmeticNames();
    if name in ["NEGATE", "ABS", "1+", "1-"] && Depth(DataStack(m)) < 1 {
      var p := if name == "NEGATE" then NEGATE else if name == "ABS" then ABS else if name == "1+" then ONEPLUS else ONEMINUS;
      assert Operands(p) == 1 by { OperandsCounted(p); }
      Underflows(name, p, m);
    }
    if name in ["+", "-", "*"] && Depth(DataStack(m)) < 2 {
      var p := if name == "+" then PLUS else if name == "-" then MINUS else MUL;
      assert Operands(p) == 2 by { OperandsCounted(p); }
      Underflows(name, p, m);
    }
  }

  lemma ComparisonWordsNeed(name: string, m: M.State)
    requires BootedWith(CallThread(name), m) && M.Sound(m)
    ensures name in ["0=", "0<"] && Depth(DataStack(m)) < 1 ==> Raising(m, 7 + Depth(DataStack(m)), EmptyData)
    ensures name in ["=", "<>", "<", ">"] && Depth(DataStack(m)) < 2 ==> Raising(m, 7 + Depth(DataStack(m)), EmptyData)
  {
    hide Names, BootedWith, Raising, Operands, AllWords, Kernel;
    ComparisonNames();
    if name in ["0=", "0<"] && Depth(DataStack(m)) < 1 {
      var p := if name == "0=" then ZEROEQ else ZEROLT;
      assert Operands(p) == 1 by { OperandsCounted(p); }
      Underflows(name, p, m);
    }
    if name in ["=", "<>", "<", ">"] && Depth(DataStack(m)) < 2 {
      var p := if name == "=" then EQUALS else if name == "<>" then NOTEQUALS else if name == "<" then LESSTHAN else GREATERTHAN;
      assert Operands(p) == 2 by { OperandsCounted(p); }
      Underflows(name, p, m);
    }
  }

  lemma LogicWordsNeed(name: string, m: M.State)
    requires BootedWith(CallThread(name), m) && M.Sound(m)
    ensures name in ["INVERT"] && Depth(DataStack(m)) < 1 ==> Raising(m, 7 + Depth(DataStack(m)), EmptyData)
    ensures name in ["AND", "OR"] && Depth(DataStack(m)) < 2 ==> Raising(m, 7 + Depth(DataStack(m)), EmptyData)
  {
    hide Names, BootedWith, Raising, Operands, AllWords, Kernel;
    LogicNames();
    if name in ["INVERT"] && Depth(DataStack(m)) < 1 {
      var p := BITINVERT;
      assert Operands(p) == 1 by { OperandsCounted(p); }
      Underflows(name, p, m);
    }
    if name in ["AND", "OR"] && Depth(DataStack(m)) < 2 {
      var p := if name == "AND" then BITAND else BITOR;
      assert Operands(p) == 2 by { OperandsCounted(p); }
      Underflows(name, p, m);
    }
  }

  lemma MemoryWordsNeed(name: string, m: M.State)
    requires BootedWith(CallThread(name), m) && M.Sound(m)
    ensures name in ["@", "C@", ">R"] && Depth(DataStack(m)) < 1 ==> Raising(m, 7 + Depth(DataStack(m)), EmptyData)
    ensures name in ["!", "C!"] && Depth(DataStack(m)) < 2 ==> Raising(m, 7 + Depth(DataStack(m)), EmptyData)
  {
    hide Names, BootedWith, Raising, Operands, AllWords, Kernel;
    MemoryNames();
    if name in ["@", "C@", ">R"] && Depth(DataStack(m)) < 1 {
      var p := if name == "@" then FETCH else if name == "C@" then CFETCH else TOR;
      assert Operands(p) == 1 by { OperandsCounted(p); }
      Underflows(name, p, m);
    }
    if name in ["!", "C!"] && Depth(DataStack(m)) < 2 {
      var p := if name == "!" then STOREW else CSTOREW;
      assert Operands(p) == 2 by { OperandsCounted(p); }
      Underflows(name, p, m);
    }
  }

  lemma TextWordsNeed(name: string, m: M.State)
    requires BootedWith(CallThread(name), m) && M.Sound(m)
    ensures name in ["EMIT", "NUMBER", "WORD", "FIND"] && Depth(DataStack(m)) < 1 ==> Raising(m, 7 + Depth(DataStack(m)), EmptyData)
  {
    hide Names, BootedWith, Raising, Operands, AllWords, Kernel;
    TextNames();
    if name in ["EMIT", "NUMBER", "WORD", "FIND"] && Depth(DataStack(m)) < 1 {
      var p := if name == "EMIT" then EMIT else if name == "NUMBER" then NUMBER else if name == "WORD" then WORD else FIND;
      assert Operands(p) == 1 by { OperandsCounted(p); }
      Underflows(name, p, m);
    }
  }

  // ---- no room, no input ----

  lemma CopyTroubles(c: Context, p: Prim, d: Data, depth: nat)
    requires p in {DUP, OVER, TUCK} && Depth(d.ds) == 1024
    ensures Meaning(c, p, d, depth).None? && TroubleOf(p, d, depth) == Hits(FullData)
    ensures TroubleCost(c, p, d) == if p == DUP then 2 else 4
  {
    hide Meaning, Operands;
    OperandsCounted(p);
    ShuffleIs(c, p, d, depth);
    assert d.ds.Push? && d.ds.rest.Push?;
    CopyDeeper(p, d.ds);
  }

  lemma CopyDeeper(p: Prim, s: Stack)
    requires p in {DUP, OVER, TUCK} && s.Push? && s.rest.Push?
    ensures Shuffle(p, s).Some? && Depth(Shuffle(p, s).value) == Depth(s) + 1
  {
    DepthOfPush(s.top, s);
    DepthOfPush(s.rest.top, s);
    DepthOfPush(s.rest.top, s.rest.rest);
    DepthOfPush(s.top, s.rest.rest);
    DepthOfPush(s.rest.top, Push(s.top, s.rest.rest));
    DepthOfPush(s.top, Push(s.rest.top, Push(s.top, s.rest.rest)));
  }

  lemma DepthOfPush(v: int, s: Stack)
    ensures Depth(Push(v, s)) == 1 + Depth(s)
  {
  }

  /** A full data stack refuses the copy. */
  lemma CopiesOverflow(name: string, m: M.State)
    requires BootedWith(CallThread(name), m) && M.Sound(m) && Depth(DataStack(m)) == 1024
    ensures name == "DUP" ==> Raising(m, 9, FullData)
    ensures name == "OVER" || name == "TUCK" ==> Raising(m, 11, FullData)
  {
    hide Names, BootedWith, Raising, Meaning, TroubleOf, TroubleCost, ImageProgram, AllWords, Kernel;
    StackNames();
    StartIs(m);
    if name == "DUP" || name == "OVER" || name == "TUCK" {
      var p := if name == "DUP" then DUP else if name == "OVER" then OVER else TUCK;
      CopyTroubles(ProgramFor(CallThread(name)).context, p, Start(m), Depth(ReturnStack(m)));
      CallTroubles(name, p, m);
    }
  }

  lemma DeviceTroubles(c: Context, d: Data, depth: nat)
    requires d.input == [] || Depth(d.ds) == 1024
    ensures Meaning(c, KEY, d, depth).None?
    ensures TroubleOf(KEY, d, depth) == Hits(if d.input == [] then NoInput else FullData)
    ensures TroubleCost(c, KEY, d) == if d.input == [] then 0 else 1
  {
    hide Meaning, Operands;
    OperandsNone(KEY);
    DeviceIs(c, KEY, d, depth);
  }

  /** `KEY` needs a character and a place for it. */
  lemma KeyFails(m: M.State)
    requires BootedWith(CallThread("KEY"), m) && M.Sound(m)
    ensures m.input == [] ==> Raising(m, 7, NoInput)
    ensures m.input != [] && Depth(DataStack(m)) == 1024 ==> Raising(m, 8, FullData)
  {
    hide Names, BootedWith, Raising, Meaning, TroubleOf, TroubleCost, ImageProgram, AllWords, Kernel;
    TextNames();
    StartIs(m);
    if m.input == [] || Depth(DataStack(m)) == 1024 {
      DeviceTroubles(ProgramFor(CallThread("KEY")).context, Start(m), Depth(ReturnStack(m)));
      CallTroubles("KEY", KEY, m);
    }
  }

  lemma ReturnTroubles(c: Context, p: Prim, d: Data, depth: nat)
    requires IsReturnWord(p) && d.rs.Empty? && (if p == TOR then d.ds.Push? && depth == 1024 else depth == 0)
    ensures Meaning(c, p, d, depth).None? && TroubleOf(p, d, depth) == Hits(if p == TOR then FullReturn else EmptyReturn)
    ensures TroubleCost(c, p, d) == if p == TOR then 1 else 0
  {
    hide Meaning, Operands;
    OperandsNone(p);
    OperandsCounted(p);
    ReturnIs(c, p, d, depth);
  }

  /** `>R` needs room on the return stack, `R>` and `R@` something on it. */
  lemma ReturnWordsFail(name: string, m: M.State)
    requires BootedWith(CallThread(name), m) && M.Sound(m)
    ensures name == ">R" && DataStack(m).Push? && Depth(ReturnStack(m)) == 1024 ==> Raising(m, 8, FullReturn)
    ensures (name == "R>" || name == "R@") && ReturnStack(m).Empty? ==> Raising(m, 7, EmptyReturn)
  {
    hide Names, BootedWith, Raising, Meaning, TroubleOf, TroubleCost, ImageProgram, AllWords, Kernel;
    MemoryNames();
    StartIs(m);
    var c := ProgramFor(CallThread(name)).context;
    if name == ">R" && DataStack(m).Push? && Depth(ReturnStack(m)) == 1024 {
      ReturnTroubles(c, TOR, Start(m), 1024);
      CallTroubles(name, TOR, m);
    }
    if (name == "R>" || name == "R@") && ReturnStack(m).Empty? {
      var p := if name == "R>" then FROMR else RFETCH;
      ReturnTroubles(c, p, Start(m), 0);
      CallTroubles(name, p, m);
    }
  }

  // ---- text ----

  lemma NumberTroubles(c: Context, d: Data, depth: nat)
    requires d.ds.Push? && Depth(d.ds) == 1024 && Counted(d.low, d.ds.top)
    ensures Meaning(c, NUMBER, d, depth).None?
  {
    hide Meaning, CountedText, ParseNumber;
    NumberIs(c, d, depth);
    TwoForOne(d.ds);
  }

  lemma FindTroubles(c: Context, d: Data, depth: nat)
    requires d.ds.Push? && Depth(d.ds) == 1024 && Counted(d.low, d.ds.top)
    ensures Meaning(c, FIND, d, depth).None?
  {
    hide Meaning, CountedText, Found;
    FindIs(c, d, depth);
    TwoForOne(d.ds);
  }

  lemma TwoForOne(s: Stack)
    requires s.Push?
    ensures forall x, y {:trigger Push(x, Push(y, s.rest))} :: Depth(Push(x, Push(y, s.rest))) == Depth(s) + 1
  {
    forall x, y
      ensures Depth(Push(x, Push(y, s.rest))) == Depth(s) + 1
    {
      DepthOfPush(x, Push(y, s.rest));
      DepthOfPush(y, s.rest);
      DepthOfPush(s.top, s.rest);
    }
  }

  lemma TextTroubles(c: Context, p: Prim, d: Data, depth: nat)
    requires p in {NUMBER, FIND} && d.ds.Push? && Depth(d.ds) == 1024 && Counted(d.low, d.ds.top)
    ensures Meaning(c, p, d, depth).None? && TroubleOf(p, d, depth) == Hits(FullData)
  {
    hide Meaning, Operands, Counted;
    OperandsCounted(p);
    NumberTroubles(c, d, depth);
    FindTroubles(c, d, depth);
  }

  /** `NUMBER` and `FIND` leave two values for one, and a full stack refuses the second. */
  lemma TextWordsOverflow(name: string, m: M.State, a: int, text: seq<int>, r: Stack)
    requires BootedWith(CallThread(name), m) && M.Sound(m) && DataStack(m) == Push(a, r) && Depth(DataStack(m)) == 1024
    requires HoldsText(m, a, text) && (name == "NUMBER" || name == "FIND")
    ensures exists n: nat :: Raising(m, n, FullData)
  {
    hide Names, BootedWith, Raising, Meaning, TroubleOf, TroubleCost, ImageProgram, AllWords, Kernel, HoldsText;
    TextNames();
    StartIs(m);
    TextHeld(m, a, text);
    var p := if name == "NUMBER" then NUMBER else FIND;
    TextTroubles(ProgramFor(CallThread(name)).context, p, Start(m), Depth(ReturnStack(m)));
    CallTroubles(name, p, m);
  }

  lemma DryTroubles(c: Context, d: Data, depth: nat, delim: int, k: nat, text: seq<int>)
    requires d.ds.Push? && d.ds.top == delim && d.input == Repeat(delim, k) + text && delim !in text && |text| < 64
    requires |d.low| == 2048
    ensures Meaning(c, WORD, d, depth).None? && TroubleOf(WORD, d, depth) == Hits(NoInput)
  {
    hide Meaning, Operands, Leading, TokenLength;
    OperandsCounted(WORD);
    WordIs(c, d, depth);
    DryScans(delim, k, text);
    LeadingBound(d.input, delim);
  }

  lemma {:induction false} DryScans(delim: int, k: nat, text: seq<int>)
    requires delim !in text
    ensures Leading(Repeat(delim, k) + text, delim) == k <= |Repeat(delim, k) + text|
    ensures (Repeat(delim, k) + text)[k..] == text && TokenLength(text, delim) == |text|
  {
    if k > 0 {
      DryScans(delim, k - 1, text);
      assert (Repeat(delim, k) + text)[1..] == Repeat(delim, k - 1) + text;
    } else {
      assert Repeat(delim, 0) + text == text;
      AllToken(delim, text);
    }
  }

  lemma {:induction false} AllToken(delim: int, text: seq<int>)
    requires delim !in text
    ensures TokenLength(text, delim) == |text|
  {
    if text != [] {
      AllToken(delim, text[1..]);
    }
  }

  /** `WORD` runs out of input when nothing closes the last token. */
  lemma WordRunsOut(m: M.State, delim: int, k: nat, text: seq<int>, r: Stack)
    requires BootedWith(CallThread("WORD"), m) && M.Sound(m) && DataStack(m) == Push(delim, r)
    requires m.input == Repeat(delim, k) + text && delim !in text && |text| < 64
    ensures exists n: nat :: Raising(m, n, NoInput)
  {
    hide Names, BootedWith, Raising, Meaning, TroubleOf, TroubleCost, ImageProgram, AllWords, Kernel, Repeat;
    TextNames();
    StartIs(m);
    DryTroubles(ProgramFor(CallThread("WORD")).context, Start(m), Depth(ReturnStack(m)), delim, k, text);
    CallTroubles("WORD", WORD, m);
  }

  // ---- the words that steer ----

  /** `LIT v BYE`. */
  function LiteralThread(v: int): seq<ThreadItem> { [WordReference("LIT"), LiteralCell(v), WordReference("BYE")] }

  lemma LiteralSoFar(m: M.State, v: int, depth: nat)
    requires M.Sound(m) && depth == Depth(ReturnStack(m))
    requires Unshadowed(AllWords([]), "LIT", LIT) && Unshadowed(AllWords([]), "BYE", BYE)
    ensures var o := BootOutcome(Kernel(), AllWords([]), LiteralThread(v), m);
      if Depth(DataStack(m)) < 1024
      then o.Stopped? && o.d == Start(m).(ds := Push(v, DataStack(m))) && !o.nested
      else o == Raised(FullData, 5)
  {
    hide AllWords, EvalThread, Unshadowed, Kernel, EntriesOf;
    var p, boot := ProgramFor(LiteralThread(v)), LiteralThread(v);
    StartIs(m);
    StackFits(m);
    if Depth(DataStack(m)) < 1024 {
      LiteralEvaluates(p, boot, 0, Start(m), depth, v);
      CodeWordEvaluates(p, boot, 2, Start(m).(ds := Push(v, DataStack(m))), depth, BYE);
    } else {
      LiteralRefused(p, boot, 0, Start(m), depth, v);
    }
  }

  lemma LiteralRefused(p: Program, items: seq<ThreadItem>, j: nat, d: Data, depth: nat, v: int)
    requires Matched(p) && j + 1 < |items| && items[j].WordReference? && Unshadowed(p.words, items[j].name, LIT)
    requires items[j + 1] == LiteralCell(v) && Depth(d.ds) >= DATA_STACK_SIZE
    ensures EvalThread(p, |p.words|, items, j, d, depth) == Raised(FullData, 5)
  {
    hide Lookup;
    assert p.words[..|p.words|] == p.words;
  }

  /** `LIT` pushes the cell behind it, which is not executed. */
  lemma LiteralLeaves(m: M.State, v: int)
    requires BootedWith(LiteralThread(v), m) && M.Sound(m)
    ensures Depth(DataStack(m)) < 1024 ==> LeavesStack(m, Push(v, DataStack(m)))
    ensures Depth(DataStack(m)) == 1024 ==> Raising(m, 8, FullData)
  {
    hide Names, AllWords, Unshadowed, BootedWith, HaltsLeaving, Raising, Kernel, BootOutcome, Accepted;
    var boot := LiteralThread(v);
    ControlNames();
    ThreadAccepted(boot);
    KernelBound("LIT", LIT);
    KernelBound("BYE", BYE);
    StartIs(m);
    LiteralSoFar(m, v, Depth(ReturnStack(m)));
    if Depth(DataStack(m)) < 1024 {
      Leaving(boot, m, Start(m).(ds := Push(v, DataStack(m))));
    } else {
      Troubling(boot, m);
    }
  }

  lemma ByeSoFar(m: M.State)
    requires M.Sound(m) && Unshadowed(AllWords([]), "BYE", BYE)
    ensures BootOutcome(Kernel(), AllWords([]), [WordReference("BYE")], m) == Stopped(Start(m), 5, false)
  {
    hide AllWords, EvalThread, Unshadowed, Kernel, EntriesOf;
    var boot := [WordReference("BYE")];
    CodeWordEvaluates(ProgramFor(boot), boot, 0, Start(m), Depth(ReturnStack(m)), BYE);
  }

  /** `BYE` halts and touches nothing. */
  lemma ByeLeaves(m: M.State)
    requires BootedWith([WordReference("BYE")], m) && M.Sound(m)
    ensures LeavesStack(m, DataStack(m))
  {
    hide Names, AllWords, Unshadowed, BootedWith, HaltsLeaving, Kernel, BootOutcome, Accepted;
    var boot := [WordReference("BYE")];
    ControlNames();
    ThreadAccepted(boot);
    KernelBound("BYE", BYE);
    ByeSoFar(m);
    StartIs(m);
    Leaving(boot, m, Start(m));
  }

  lemma ExitSoFar(m: M.State)
    requires M.Sound(m) && Unshadowed(AllWords([]), "EXIT", EXIT) && ReturnStack(m).Empty?
    ensures BootOutcome(Kernel(), AllWords([]), [WordReference("EXIT")], m) == Raised(EmptyReturn, 4)
  {
    hide AllWords, Lookup, Kernel, EntriesOf;
    assert AllWords([])[..|AllWords([])|] == AllWords([]);
  }

  /** `EXIT` outside any definition finds nothing to return to. */
  lemma ExitFails(m: M.State)
    requires BootedWith([WordReference("EXIT")], m) && M.Sound(m) && ReturnStack(m).Empty?
    ensures Raising(m, 7, EmptyReturn)
  {
    hide Names, AllWords, Unshadowed, BootedWith, Raising, Kernel, BootOutcome, Accepted;
    var boot := [WordReference("EXIT")];
    ControlNames();
    ThreadAccepted(boot);
    KernelBound("EXIT", EXIT);
    ExitSoFar(m);
    Troubling(boot, m);
  }
}
