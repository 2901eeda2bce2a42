/** What each of the kernel's words does on a booted machine, called by its name: the words by their
    strings, their results in plain arithmetic, followed from `START` to the halt or the error. */
module KernelWords {
  import opened Wrappers
  import opened Isa
  import opened Cpu
  import opened Layout
  import opened Stacks
  import opened AbstractMachine
  import opened KernelSource
  import opened KernelLayout
  import opened DictionaryShape
  import opened Words
  import opened Primitives
  import opened Troubles
  import opened Evaluation
  import opened Building
  import opened Correctness
  import opened Separation
  import opened EndToEnd
  import opened KernelBuilder
  import opened Images
  import opened NameTable
  import opened Assembler
  import Agreement
  import Bits
  import RoundTrip
  import KernelAssembles
  import M = Machine

  // ---- one call, then `BYE` ----

  /** `name BYE`. */
  function CallThread(name: string): seq<ThreadItem> { [WordReference(name), WordReference("BYE")] }

  /** The machine is booted on the kernel's own image and about to run the boot thread. */
  ghost predicate BootedWith(boot: seq<ThreadItem>, m: M.State) {
    Booted(AllWords([]), m) && ImageIn(Kernel(), AllWords([]), boot, m.mem[..DICTIONARY_SIZE])
  }

  /** The machine halts on these stacks, dictionary block, input and output, and `run` returns exactly for
      the budgets that reach so far. */
  ghost predicate HaltsWith(m: M.State, n: nat, ds: Stack, rs: Stack, low: seq<int>, input: seq<int>, output: seq<int>) {
    && M.Sound(m) && RunNeeds(Kernel().program, m, n)
    && var end := M.Steps(Kernel().program, m, n).value;
       && M.Sound(end) && end.halted
       && DataStack(end) == ds && ReturnStack(end) == rs && end.mem[..DICTIONARY_SIZE] == low
       && end.input == input && end.output == output
  }

  ghost predicate HaltsLeaving(m: M.State, ds: Stack, rs: Stack, low: seq<int>, input: seq<int>, output: seq<int>) {
    exists n: nat :: HaltsWith(m, n, ds, rs, low, input, output)
  }

  /** It halts with that data stack and everything else as it was. */
  ghost predicate LeavesStack(m: M.State, ds: Stack)
    requires M.Sound(m)
  {
    HaltsLeaving(m, ds, ReturnStack(m), m.mem[..DICTIONARY_SIZE], m.input, m.output)
  }

  lemma NoColons()
    ensures Agreement.Unambiguous(AllWords([]))
  {
    hide WordName, AllWords;
    KernelWordsOnly();
    forall i, j | 0 <= i < j < |AllWords([])|
      ensures Agreement.Apart(AllWords([]), i, j)
    {
      AllWordsAt([], j);
    }
  }

  lemma KernelBound(name: string, p: Prim)
    requires Names(name, p)
    ensures Unshadowed(AllWords([]), name, p)
  {
    hide Names, AllWords, Unshadowed;
    NoColons();
    NameBound([], name, p);
  }

  /** Boot threads of kernel words are accepted. */
  lemma ThreadAccepted(boot: seq<ThreadItem>)
    requires |boot| <= 10
    requires forall i :: 0 <= i < |boot| && boot[i].WordReference? ==> exists p: Prim :: Names(boot[i].name, p)
    ensures Accepted(AllWords([]), boot)
  {
    hide Names, AllWords, Lookup, Accepted;
    forall item | item in boot && item.WordReference?
      ensures Lookup(AllWords([]), item.name).Some?
    {
      var i :| 0 <= i < |boot| && boot[i] == item;
      var p: Prim :| Names(boot[i].name, p);
      KernelBound(item.name, p);
    }
    KernelAccepted(boot);
  }

  /** The program of the kernel's own image, and the data the boot thread starts with. */
  function ProgramFor(boot: seq<ThreadItem>): Program { ImageProgram(Kernel(), AllWords([]), boot) }

  function Start(m: M.State): Data
    requires M.Sound(m)
  {
    View(m).d.(rs := Empty)
  }

  /** What evaluation says of a boot thread that ends in its own `BYE` is what the machine leaves. */
  lemma Leaving(boot: seq<ThreadItem>, m: M.State, d: Data)
    requires Accepted(AllWords([]), boot) && BootedWith(boot, m)
    requires BootOutcome(Kernel(), AllWords([]), boot, m).Stopped?
    requires BootOutcome(Kernel(), AllWords([]), boot, m).d == d && !BootOutcome(Kernel(), AllWords([]), boot, m).nested
    ensures HaltsLeaving(m, d.ds, Over(d.rs, ReturnStack(m)), d.low, d.input, d.output)
  {
    hide Accepted, ImageIn, AllWords, BootOutcome, Assemble, RunNeeds;
    KernelAssembles.KernelAssembled();
    CompilerCorrect(Kernel(), AllWords([]), boot, m);
    var n := 3 + BootOutcome(Kernel(), AllWords([]), boot, m).cost;
    assert HaltsWith(m, n, d.ds, Over(d.rs, ReturnStack(m)), d.low, d.input, d.output);
  }

  /** A word with a meaning, called by its name. */
  lemma CallLeaves(name: string, p: Prim, m: M.State, d: Data)
    requires BootedWith(CallThread(name), m) && Names(name, p) && !(p in {LIT, EXIT, BYE})
    requires Meaning(ProgramFor(CallThread(name)).context, p, Start(m), Depth(ReturnStack(m))) == Some(d)
    ensures HaltsLeaving(m, d.ds, Over(d.rs, ReturnStack(m)), d.low, d.input, d.output)
  {
    hide Names, AllWords, Meaning, RoutineCost, EvalThread, Unshadowed, BootedWith, HaltsLeaving, Kernel;
    var boot := CallThread(name);
    ControlNames();
    ThreadAccepted(boot);
    KernelBound(name, p);
    KernelBound("BYE", BYE);
    SoundOf(boot, m);
    SoFar(boot, m, p, d, Depth(ReturnStack(m)));
    Leaving(boot, m, d);
  }

  lemma SoundOf(boot: seq<ThreadItem>, m: M.State)
    requires BootedWith(boot, m)
    ensures M.Sound(m)
  {
  }

  lemma SoFar(boot: seq<ThreadItem>, m: M.State, p: Prim, d: Data, depth: nat)
    requires M.Sound(m) && depth == Depth(ReturnStack(m)) && |boot| == 2
    requires boot[0].WordReference? && boot[1] == WordReference("BYE")
    requires Unshadowed(AllWords([]), boot[0].name, p) && Unshadowed(AllWords([]), "BYE", BYE)
    requires !(p in {LIT, EXIT, BYE}) && Meaning(ProgramFor(boot).context, p, Start(m), depth) == Some(d)
    ensures BootOutcome(Kernel(), AllWords([]), boot, m).Stopped?
    ensures BootOutcome(Kernel(), AllWords([]), boot, m).d == d && !BootOutcome(Kernel(), AllWords([]), boot, m).nested
  {
    hide AllWords, Meaning, RoutineCost, EvalThread, Unshadowed, Kernel, EntriesOf;
    CodeWordEvaluates(ProgramFor(boot), boot, 0, Start(m), depth, p);
    CodeWordEvaluates(ProgramFor(boot), boot, 1, d, depth, BYE);
  }

  lemma StartIs(m: M.State)
    requires M.Sound(m)
    ensures Start(m) == Data(m.mem[..DICTIONARY_SIZE], DataStack(m), Empty, m.input, m.output)
  {
  }

  /** A word that changes the data stack only. */
  lemma StackLeft(name: string, p: Prim, m: M.State, s: Stack)
    requires BootedWith(CallThread(name), m) && Names(name, p) && !(p in {LIT, EXIT, BYE}) && M.Sound(m)
    requires Meaning(ProgramFor(CallThread(name)).context, p, Start(m), Depth(ReturnStack(m))) == Some(Start(m).(ds := s))
    ensures LeavesStack(m, s)
  {
    hide Names, Meaning, BootedWith, HaltsLeaving, Kernel, AllWords;
    StartIs(m);
    CallLeaves(name, p, m, Start(m).(ds := s));
  }

  // ---- stack words ----

  lemma Shuffled(name: string, p: Prim, m: M.State, s: Stack)
    requires BootedWith(CallThread(name), m) && Names(name, p) && IsShuffle(p) && M.Sound(m)
    requires Shuffle(p, DataStack(m)) == Some(s) && Depth(s) <= DATA_STACK_SIZE
    ensures LeavesStack(m, s)
  {
    hide Names, Meaning, BootedWith, LeavesStack, Kernel, AllWords, Shuffle;
    StartIs(m);
    ShuffleIs(ProgramFor(CallThread(name)).context, p, Start(m), Depth(ReturnStack(m)));
    StackLeft(name, p, m, s);
  }

  /** The stack words that copy or drop, on `a b c` with `c` on top. */
  lemma CopyingLeaves(name: string, m: M.State, a: int, b: int, c: int, r: Stack)
    requires BootedWith(CallThread(name), m) && M.Sound(m)
    requires DataStack(m) == Push(c, Push(b, Push(a, r))) && Depth(r) + 3 < DATA_STACK_SIZE
    ensures name == "DUP" ==> LeavesStack(m, Push(c, Push(c, Push(b, Push(a, r)))))
    ensures name == "DROP" ==> LeavesStack(m, Push(b, Push(a, r)))
    ensures name == "OVER" ==> LeavesStack(m, Push(b, Push(c, Push(b, Push(a, r)))))
    ensures name == "TUCK" ==> LeavesStack(m, Push(c, Push(b, Push(c, Push(a, r)))))
  {
    hide Names, LeavesStack, HaltsLeaving, BootedWith;
    StackNames();
    ThreeDeep(a, b, c, r);
    if name == "DUP" {
      Shuffled(name, DUP, m, Push(c, Push(c, Push(b, Push(a, r)))));
    }
    if name == "DROP" {
      Shuffled(name, DROP, m, Push(b, Push(a, r)));
    }
    if name == "OVER" {
      Shuffled(name, OVER, m, Push(b, Push(c, Push(b, Push(a, r)))));
    }
    if name == "TUCK" {
      Shuffled(name, TUCK, m, Push(c, Push(b, Push(c, Push(a, r)))));
    }
  }

  /** The stack words that move values, on `a b c` with `c` on top. */
  lemma MovingLeaves(name: string, m: M.State, a: int, b: int, c: int, r: Stack)
    requires BootedWith(CallThread(name), m) && M.Sound(m)
    requires DataStack(m) == Push(c, Push(b, Push(a, r))) && Depth(r) + 3 < DATA_STACK_SIZE
    ensures name == "SWAP" ==> LeavesStack(m, Push(b, Push(c, Push(a, r))))
    ensures name == "ROT" ==> LeavesStack(m, Push(a, Push(c, Push(b, r))))
    ensures name == "-ROT" ==> LeavesStack(m, Push(b, Push(a, Push(c, r))))
    ensures name == "NIP" ==> LeavesStack(m, Push(c, Push(a, r)))
  {
    hide Names, LeavesStack, HaltsLeaving, BootedWith;
    StackNames();
    ThreeDeep(a, b, c, r);
    if name == "SWAP" {
      Shuffled(name, SWAP, m, Push(b, Push(c, Push(a, r))));
    }
    if name == "ROT" {
      Shuffled(name, ROT, m, Push(a, Push(c, Push(b, r))));
    }
    if name == "-ROT" {
      Shuffled(name, NROT, m, Push(b, Push(a, Push(c, r))));
    }
    if name == "NIP" {
      Shuffled(name, NIP, m, Push(c, Push(a, r)));
    }
  }

  lemma ThreeDeep(a: int, b: int, c: int, r: Stack)
    ensures Depth(Push(a, Push(b, Push(c, r)))) == Depth(r) + 3
    ensures forall x, y, z :: Depth(Push(x, Push(y, Push(z, r)))) == Depth(r) + 3
    ensures forall w, x, y, z :: Depth(Push(w, Push(x, Push(y, Push(z, r))))) == Depth(r) + 4
    ensures forall x, y :: Depth(Push(x, Push(y, r))) == Depth(r) + 2
  {
    assert forall x, y {:trigger Push(x, Push(y, r))} :: Depth(Push(x, Push(y, r))) == Depth(r) + 2;
  }

  // ---- arithmetic, comparisons and logic ----

  lemma Computed(name: string, p: Prim, m: M.State, a: int, b: int, r: Stack, v: int)
    requires BootedWith(CallThread(name), m) && Names(name, p) && M.Sound(m)
    requires DataStack(m) == Push(b, Push(a, r)) && Binary(p, a, b) == Some(v) && Unary(p, b).None?
    ensures LeavesStack(m, Push(v, r))
  {
    hide Names, BootedWith, LeavesStack, Kernel, AllWords;
    StartIs(m);
    ComputedMeans(ProgramFor(CallThread(name)).context, p, Start(m), Depth(ReturnStack(m)), a, b, r, v);
    hide Meaning;
    StackLeft(name, p, m, Push(v, r));
  }

  lemma ComputedMeans(c: Context, p: Prim, d: Data, depth: nat, a: int, b: int, r: Stack, v: int)
    requires d.ds == Push(b, Push(a, r)) && Binary(p, a, b) == Some(v) && Unary(p, b).None?
    ensures Meaning(c, p, d, depth) == Some(d.(ds := Push(v, r))) && !(p in {LIT, EXIT, BYE})
  {
    hide ShuffleMeaning, ReturnMeaning, DeviceMeaning, FetchMeaning, StoreMeaning, NumberMeaning, WordMeaning, FindMeaning, Bits.And, Bits.Or;
  }

  lemma Replaced(name: string, p: Prim, m: M.State, a: int, r: Stack, v: int)
    requires BootedWith(CallThread(name), m) && Names(name, p) && M.Sound(m)
    requires DataStack(m) == Push(a, r) && Unary(p, a) == Some(v)
    ensures LeavesStack(m, Push(v, r))
  {
    hide Names, BootedWith, LeavesStack, Kernel, AllWords;
    StartIs(m);
    ReplacedMeans(ProgramFor(CallThread(name)).context, p, Start(m), Depth(ReturnStack(m)), a, r, v);
    hide Meaning;
    StackLeft(name, p, m, Push(v, r));
  }

  lemma ReplacedMeans(c: Context, p: Prim, d: Data, depth: nat, a: int, r: Stack, v: int)
    requires d.ds == Push(a, r) && Unary(p, a) == Some(v)
    ensures Meaning(c, p, d, depth) == Some(d.(ds := Push(v, r))) && !(p in {LIT, EXIT, BYE})
  {
    hide ShuffleMeaning, ReturnMeaning, DeviceMeaning, FetchMeaning, StoreMeaning, NumberMeaning, WordMeaning, FindMeaning;
  }

  /** Addition, subtraction and logic, on `a b` with `b` on top. */
  lemma ArithmeticLeaves(name: string, m: M.State, a: int, b: int, r: Stack)
    requires BootedWith(CallThread(name), m) && M.Sound(m) && DataStack(m) == Push(b, Push(a, r))
    ensures name == "+" ==> LeavesStack(m, Push(a + b, r))
    ensures name == "-" ==> LeavesStack(m, Push(a - b, r))
  {
    hide Names, LeavesStack, HaltsLeaving, BootedWith, Kernel, AllWords;
    ArithmeticNames();
    if name == "+" {
      Computed(name, PLUS, m, a, b, r, a + b);
    }
    if name == "-" {
      Computed(name, MINUS, m, a, b, r, a - b);
    }
  }

  /** Logic, bit by bit as `Bits` proves. */
  lemma LogicLeaves(name: string, m: M.State, a: int, b: int, r: Stack)
    requires BootedWith(CallThread(name), m) && M.Sound(m) && DataStack(m) == Push(b, Push(a, r))
    ensures name == "AND" ==> LeavesStack(m, Push(Bits.And(a, b), r))
    ensures name == "OR" ==> LeavesStack(m, Push(Bits.Or(a, b), r))
  {
    hide Names, LeavesStack, HaltsLeaving, BootedWith, Bits.And, Bits.Or;
    LogicNames();
    if name == "AND" {
      Computed(name, BITAND, m, a, b, r, Bits.And(a, b));
    }
    if name == "OR" {
      Computed(name, BITOR, m, a, b, r, Bits.Or(a, b));
    }
  }

  /** The comparisons leave -1 for true and 0 for false. */
  lemma ComparisonsLeave(name: string, m: M.State, a: int, b: int, r: Stack)
    requires BootedWith(CallThread(name), m) && M.Sound(m) && DataStack(m) == Push(b, Push(a, r))
    ensures name == "=" ==> LeavesStack(m, Push(if a == b then -1 else 0, r))
    ensures name == "<>" ==> LeavesStack(m, Push(if a != b then -1 else 0, r))
    ensures name == "<" ==> LeavesStack(m, Push(if a < b then -1 else 0, r))
    ensures name == ">" ==> LeavesStack(m, Push(if a > b then -1 else 0, r))
  {
    hide Names, LeavesStack, HaltsLeaving, BootedWith;
    ComparisonNames();
    if name == "=" {
      Computed(name, EQUALS, m, a, b, r, if a == b then -1 else 0);
    }
    if name == "<>" {
      Computed(name, NOTEQUALS, m, a, b, r, if a != b then -1 else 0);
    }
    if name == "<" {
      Computed(name, LESSTHAN, m, a, b, r, if a < b then -1 else 0);
    }
    if name == ">" {
      Computed(name, GREATERTHAN, m, a, b, r, if a > b then -1 else 0);
    }
  }

  /** The words on one value. */
  lemma UnaryLeave(name: string, m: M.State, a: int, r: Stack)
    requires BootedWith(CallThread(name), m) && M.Sound(m) && DataStack(m) == Push(a, r)
    ensures name == "NEGATE" ==> LeavesStack(m, Push(-a, r))
    ensures name == "ABS" ==> LeavesStack(m, Push(if a < 0 then -a else a, r))
    ensures name == "1+" ==> LeavesStack(m, Push(a + 1, r))
    ensures name == "1-" ==> LeavesStack(m, Push(a - 1, r))
  {
    hide Names, LeavesStack, HaltsLeaving, BootedWith;
    ArithmeticNames();
    if name == "NEGATE" {
      Replaced(name, NEGATE, m, a, r, -a);
    }
    if name == "ABS" {
      Replaced(name, ABS, m, a, r, if a < 0 then -a else a);
    }
    if name == "1+" {
      Replaced(name, ONEPLUS, m, a, r, a + 1);
    }
    if name == "1-" {
      Replaced(name, ONEMINUS, m, a, r, a - 1);
    }
  }

  /** The tests for zero and for less, and inversion. */
  lemma TestsLeave(name: string, m: M.State, a: int, r: Stack)
    requires BootedWith(CallThread(name), m) && M.Sound(m) && DataStack(m) == Push(a, r)
    ensures name == "0=" ==> LeavesStack(m, Push(if a == 0 then -1 else 0, r))
    ensures name == "0<" ==> LeavesStack(m, Push(if a < 0 then -1 else 0, r))
    ensures name == "INVERT" ==> LeavesStack(m, Push(-a - 1, r))
  {
    hide Names, LeavesStack, HaltsLeaving, BootedWith;
    ComparisonNames();
    LogicNames();
    if name == "0=" {
      Replaced(name, ZEROEQ, m, a, r, if a == 0 then -1 else 0);
    }
    if name == "0<" {
      Replaced(name, ZEROLT, m, a, r, if a < 0 then -1 else 0);
    }
    if name == "INVERT" {
      Replaced(name, BITINVERT, m, a, r, -a - 1);
    }
  }

  // ---- multiplication ----

  /** `*` leaves the product for every multiplier that is not negative, and never stops for any other. */
  lemma MultiplicationLeaves(m: M.State, a: int, b: int, r: Stack)
    requires BootedWith(CallThread("*"), m) && M.Sound(m) && DataStack(m) == Push(b, Push(a, r))
    ensures b >= 0 ==> LeavesStack(m, Push(a * b, r))
    ensures b < 0 ==> NeverStops(Kernel().program, m)
  {
    hide Names, LeavesStack, BootedWith, NeverStops, Kernel, AllWords;
    ArithmeticNames();
    if b >= 0 {
      Computed("*", MUL, m, a, b, r, a * b);
    } else {
      NegativeTroubles(ProgramFor(CallThread("*")).context, Start(m), Depth(ReturnStack(m)), a, b, r);
      CallTroubles("*", MUL, m);
    }
  }

  lemma NegativeTroubles(c: Context, d: Data, depth: nat, a: int, b: int, r: Stack)
    requires d.ds == Push(b, Push(a, r)) && b < 0
    ensures Meaning(c, MUL, d, depth).None? && TroubleOf(MUL, d, depth) == Forever
  {
    hide ShuffleMeaning, ReturnMeaning, DeviceMeaning, FetchMeaning, StoreMeaning, NumberMeaning, WordMeaning, FindMeaning,
         RunsDry, Counted;
    assert Depth(d.ds) == 2 + Depth(r);
  }

  // ---- what a word without a meaning does ----

  /** The machine raises the error of `fault` at step `n + 1`, and `run` does for the budgets that reach it. */
  ghost predicate Raising(m: M.State, n: nat, fault: Fault) { RaisesAs(Kernel().program, m, n, fault) }

  lemma TroubledSoFar(boot: seq<ThreadItem>, m: M.State, p: Prim, depth: nat)
    requires M.Sound(m) && depth == Depth(ReturnStack(m)) && boot != []
    requires boot[0].WordReference? && Unshadowed(AllWords([]), boot[0].name, p) && !(p in {LIT, EXIT, BYE})
    requires Meaning(ProgramFor(boot).context, p, Start(m), depth).None?
    ensures BootOutcome(Kernel(), AllWords([]), boot, m) == Troubled(ProgramFor(boot).context, p, Start(m), depth)
  {
    hide AllWords, Meaning, RoutineCost, EvalThread, Unshadowed, Kernel, EntriesOf, Troubled;
    CodeWordEvaluates(ProgramFor(boot), boot, 0, Start(m), depth, p);
  }

  lemma Troubling(boot: seq<ThreadItem>, m: M.State)
    requires Accepted(AllWords([]), boot) && BootedWith(boot, m) && M.Sound(m)
    ensures var o := BootOutcome(Kernel(), AllWords([]), boot, m);
      && (o.Raised? ==> Raising(m, 3 + o.cost, o.fault))
      && (o.Endless? ==> NeverStops(Kernel().program, m))
  {
    hide Accepted, ImageIn, AllWords, BootOutcome, Assemble, RaisesAs, NeverStops;
    KernelAssembles.KernelAssembled();
    CompilerCorrect(Kernel(), AllWords([]), boot, m);
  }

  /** A word without a meaning, called by its name: three steps of `START`, four of `NEXT`, and its own. */
  lemma CallTroubles(name: string, p: Prim, m: M.State)
    requires BootedWith(CallThread(name), m) && Names(name, p) && !(p in {LIT, EXIT, BYE}) && M.Sound(m)
    requires Meaning(ProgramFor(CallThread(name)).context, p, Start(m), Depth(ReturnStack(m))).None?
    ensures var t := TroubleOf(p, Start(m), Depth(ReturnStack(m)));
      && (t.Hits? ==> Raising(m, 7 + TroubleCost(ProgramFor(CallThread(name)).context, p, Start(m)), t.fault))
      && (t.Forever? ==> NeverStops(Kernel().program, m))
  {
    hide Names, AllWords, Meaning, NeverStops, Raising, TroubleOf, TroubleCost, Accepted, BootedWith, Kernel, BootOutcome,
         ImageProgram, Start;
    var boot := CallThread(name);
    ControlNames();
    ThreadAccepted(boot);
    KernelBound(name, p);
    TroubledSoFar(boot, m, p, Depth(ReturnStack(m)));
    Troubling(boot, m);
  }

  // ---- longer threads ----

  /** `first second BYE`, both words with meanings. */
  function PairThread(first: string, second: string): seq<ThreadItem> {
    [WordReference(first), WordReference(second), WordReference("BYE")]
  }

  lemma PairSoFar(boot: seq<ThreadItem>, m: M.State, p: Prim, q: Prim, d1: Data, d2: Data, depth: nat)
    requires M.Sound(m) && depth == Depth(ReturnStack(m)) && |boot| == 3
    requires boot[0].WordReference? && boot[1].WordReference? && boot[2] == WordReference("BYE")
    requires Unshadowed(AllWords([]), boot[0].name, p) && Unshadowed(AllWords([]), boot[1].name, q)
    requires Unshadowed(AllWords([]), "BYE", BYE) && !(p in {LIT, EXIT, BYE}) && !(q in {LIT, EXIT, BYE})
    requires Meaning(ProgramFor(boot).context, p, Start(m), depth) == Some(d1)
    requires Meaning(ProgramFor(boot).context, q, d1, depth) == Some(d2)
    ensures BootOutcome(Kernel(), AllWords([]), boot, m).Stopped?
    ensures BootOutcome(Kernel(), AllWords([]), boot, m).d == d2 && !BootOutcome(Kernel(), AllWords([]), boot, m).nested
  {
    hide AllWords, Meaning, RoutineCost, EvalThread, Unshadowed, Kernel, EntriesOf;
    CodeWordEvaluates(ProgramFor(boot), boot, 0, Start(m), depth, p);
    CodeWordEvaluates(ProgramFor(boot), boot, 1, d1, depth, q);
    CodeWordEvaluates(ProgramFor(boot), boot, 2, d2, depth, BYE);
  }

  lemma PairLeaves(first: string, p: Prim, second: string, q: Prim, m: M.State, d1: Data, d2: Data)
    requires BootedWith(PairThread(first, second), m) && Names(first, p) && Names(second, q) && M.Sound(m)
    requires !(p in {LIT, EXIT, BYE}) && !(q in {LIT, EXIT, BYE})
    requires Meaning(ProgramFor(PairThread(first, second)).context, p, Start(m), Depth(ReturnStack(m))) == Some(d1)
    requires Meaning(ProgramFor(PairThread(first, second)).context, q, d1, Depth(ReturnStack(m))) == Some(d2)
    ensures HaltsLeaving(m, d2.ds, Over(d2.rs, ReturnStack(m)), d2.low, d2.input, d2.output)
  {
    hide Names, AllWords, Meaning, Unshadowed, BootedWith, HaltsLeaving, Kernel, BootOutcome, Start, ImageProgram;
    var boot := PairThread(first, second);
    ControlNames();
    ThreadAccepted(boot);
    KernelBound(first, p);
    KernelBound(second, q);
    KernelBound("BYE", BYE);
    PairSoFar(boot, m, p, q, d1, d2, Depth(ReturnStack(m)));
    Leaving(boot, m, d2);
  }

  // ---- the return stack ----

  lemma TakenOver(c: Context, d: Data, depth: nat, a: int, r: Stack)
    requires d.ds == Push(a, r) && d.rs.Empty? && depth < RETURN_STACK_SIZE && Depth(d.ds) <= DATA_STACK_SIZE
    ensures Meaning(c, TOR, d, depth) == Some(d.(ds := r, rs := Push(a, Empty)))
    ensures Meaning(c, FROMR, d.(ds := r, rs := Push(a, Empty)), depth) == Some(d)
    ensures Meaning(c, RFETCH, d.(ds := r, rs := Push(a, Empty)), depth) == Some(d.(rs := Push(a, Empty)))
  {
    hide ShuffleMeaning, DeviceMeaning, FetchMeaning, StoreMeaning, NumberMeaning, WordMeaning, FindMeaning, ArithmeticMeaning;
  }

  /** `>R` moves the top of the data stack over. */
  lemma ToReturnLeaves(m: M.State, a: int, r: Stack)
    requires BootedWith(CallThread(">R"), m) && M.Sound(m) && DataStack(m) == Push(a, r)
    requires Depth(ReturnStack(m)) < RETURN_STACK_SIZE
    ensures HaltsLeaving(m, r, Push(a, ReturnStack(m)), m.mem[..DICTIONARY_SIZE], m.input, m.output)
  {
    hide Names, BootedWith, HaltsLeaving, Meaning, ImageProgram, AllWords, Kernel;
    MemoryNames();
    StartIs(m);
    StackFits(m);
    TakenOver(ProgramFor(CallThread(">R")).context, Start(m), Depth(ReturnStack(m)), a, r);
    CallLeaves(">R", TOR, m, Start(m).(ds := r, rs := Push(a, Empty)));
  }

  /** `R>` moves it back, `R@` copies it back. */
  lemma FromReturnLeaves(name: string, m: M.State, a: int, r: Stack)
    requires BootedWith(PairThread(">R", name), m) && M.Sound(m) && DataStack(m) == Push(a, r)
    requires Depth(ReturnStack(m)) < RETURN_STACK_SIZE
    ensures name == "R>" ==> LeavesStack(m, Push(a, r))
    ensures name == "R@" ==> HaltsLeaving(m, Push(a, r), Push(a, ReturnStack(m)), m.mem[..DICTIONARY_SIZE], m.input, m.output)
  {
    hide Names, BootedWith, HaltsLeaving, Meaning, ImageProgram, AllWords, Kernel;
    MemoryNames();
    StartIs(m);
    StackFits(m);
    TakenOver(ProgramFor(PairThread(">R", name)).context, Start(m), Depth(ReturnStack(m)), a, r);
    var d1 := Start(m).(ds := r, rs := Push(a, Empty));
    if name == "R>" {
      PairLeaves(">R", TOR, name, FROMR, m, d1, Start(m));
    }
    if name == "R@" {
      PairLeaves(">R", TOR, name, RFETCH, m, d1, Start(m).(rs := Push(a, Empty)));
    }
  }

  lemma StackFits(m: M.State)
    requires M.Sound(m)
    ensures Depth(DataStack(m)) <= DATA_STACK_SIZE && Depth(ReturnStack(m)) <= RETURN_STACK_SIZE
  {
    StackAtDepth(m.mem, m.dsp, DATA_STACK_BASE);
    StackAtDepth(m.mem, m.rsp, RETURN_STACK_BASE);
  }

  // ---- memory ----

  lemma FetchMeans(c: Context, p: Prim, d: Data, depth: nat, a: int, r: Stack)
    requires (p == FETCH || p == CFETCH) && d.ds == Push(a, r) && InBlock(d, a) && Depth(d.ds) <= DATA_STACK_SIZE
    ensures Meaning(c, p, d, depth) == Some(d.(ds := Push(d.low[a], r)))
  {
    hide ShuffleMeaning, ReturnMeaning, DeviceMeaning, StoreMeaning, NumberMeaning, WordMeaning, FindMeaning, ArithmeticMeaning;
  }

  /** `@` and `C@` read any cell of the dictionary block. */
  lemma FetchLeaves(name: string, m: M.State, a: int, r: Stack)
    requires BootedWith(CallThread(name), m) && M.Sound(m) && DataStack(m) == Push(a, r) && 0 <= a < DICTIONARY_SIZE
    ensures name == "@" || name == "C@" ==> LeavesStack(m, Push(m.mem[a], r))
  {
    hide Names, BootedWith, LeavesStack, Meaning, ImageProgram, AllWords, Kernel;
    MemoryNames();
    StartIs(m);
    StackFits(m);
    assert m.mem[..DICTIONARY_SIZE][a] == m.mem[a];
    if name == "@" {
      FetchMeans(ProgramFor(CallThread(name)).context, FETCH, Start(m), Depth(ReturnStack(m)), a, r);
      StackLeft(name, FETCH, m, Push(m.mem[a], r));
    }
    if name == "C@" {
      FetchMeans(ProgramFor(CallThread(name)).context, CFETCH, Start(m), Depth(ReturnStack(m)), a, r);
      StackLeft(name, CFETCH, m, Push(m.mem[a], r));
    }
  }

  lemma StoreMeans(c: Context, p: Prim, d: Data, depth: nat, v: int, a: int, r: Stack)
    requires (p == STOREW || p == CSTOREW) && d.ds == Push(a, Push(v, r)) && InBlock(d, a) && c.top <= a
    ensures Meaning(c, p, d, depth) == Some(d.(ds := r, low := d.low[a := v]))
  {
    hide ShuffleMeaning, ReturnMeaning, DeviceMeaning, FetchMeaning, NumberMeaning, WordMeaning, FindMeaning, ArithmeticMeaning;
  }

  /** `!` and `C!` store the value below the address, anywhere past the program. */
  lemma StoreLeaves(name: string, m: M.State, v: int, a: int, r: Stack)
    requires BootedWith(CallThread(name), m) && M.Sound(m) && DataStack(m) == Push(a, Push(v, r))
    requires ImageTop(AllWords([]), CallThread(name)) <= a < DICTIONARY_SIZE
    ensures name == "!" || name == "C!" ==>
      HaltsLeaving(m, r, ReturnStack(m), m.mem[..DICTIONARY_SIZE][a := v], m.input, m.output)
  {
    hide Names, BootedWith, HaltsLeaving, Meaning, AllWords, Kernel, ImageEnd;
    MemoryNames();
    StartIs(m);
    StackFits(m);
    EndIsPositive(AllWords([]));
    var c := ProgramFor(CallThread(name)).context;
    if name == "!" {
      StoreMeans(c, STOREW, Start(m), Depth(ReturnStack(m)), v, a, r);
      CallLeaves(name, STOREW, m, Start(m).(ds := r, low := m.mem[..DICTIONARY_SIZE][a := v]));
    }
    if name == "C!" {
      StoreMeans(c, CSTOREW, Start(m), Depth(ReturnStack(m)), v, a, r);
      CallLeaves(name, CSTOREW, m, Start(m).(ds := r, low := m.mem[..DICTIONARY_SIZE][a := v]));
    }
  }

  lemma {:induction false} EndIsPositive(words: seq<WordSpec>)
    ensures 8 <= ImageEnd(words)
  {
    if words != [] {
      EndIsPositive(words[..|words| - 1]);
    }
  }

  // ---- the devices ----

  lemma DeviceMeans(c: Context, d: Data, depth: nat)
    ensures d.input != [] && Depth(d.ds) < DATA_STACK_SIZE ==>
      Meaning(c, KEY, d, depth) == Some(d.(ds := Push(d.input[0], d.ds), input := d.input[1..]))
    ensures d.ds.Push? ==> Meaning(c, EMIT, d, depth) == Some(d.(ds := d.ds.rest, output := d.output + [d.ds.top]))
  {
    hide ShuffleMeaning, ReturnMeaning, FetchMeaning, StoreMeaning, NumberMeaning, WordMeaning, FindMeaning, ArithmeticMeaning;
  }

  /** `KEY` takes the first character of the input. */
  lemma KeyLeaves(m: M.State, c: int, rest: seq<int>)
    requires BootedWith(CallThread("KEY"), m) && M.Sound(m) && m.input == [c] + rest
    requires Depth(DataStack(m)) < DATA_STACK_SIZE
    ensures HaltsLeaving(m, Push(c, DataStack(m)), ReturnStack(m), m.mem[..DICTIONARY_SIZE], rest, m.output)
  {
    hide Names, BootedWith, HaltsLeaving, Meaning, ImageProgram, AllWords, Kernel;
    TextNames();
    StartIs(m);
    DeviceMeans(ProgramFor(CallThread("KEY")).context, Start(m), Depth(ReturnStack(m)));
    CallLeaves("KEY", KEY, m, Start(m).(ds := Push(c, DataStack(m)), input := rest));
  }

  /** `EMIT` writes after what was written before. */
  lemma EmitLeaves(m: M.State, c: int, r: Stack)
    requires BootedWith(CallThread("EMIT"), m) && M.Sound(m) && DataStack(m) == Push(c, r)
    ensures HaltsLeaving(m, r, ReturnStack(m), m.mem[..DICTIONARY_SIZE], m.input, m.output + [c])
  {
    hide Names, BootedWith, HaltsLeaving, Meaning, ImageProgram, AllWords, Kernel;
    TextNames();
    StartIs(m);
    DeviceMeans(ProgramFor(CallThread("EMIT")).context, Start(m), Depth(ReturnStack(m)));
    CallLeaves("EMIT", EMIT, m, Start(m).(ds := r, output := m.output + [c]));
  }
}
