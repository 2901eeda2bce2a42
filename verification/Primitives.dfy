/** Every CODE word of the assembled kernel: from its entry, in a known number of steps, the
    machine is back at `NEXT` having done exactly what the word means. */
module Primitives {
  import opened Wrappers
  import opened Isa
  import opened Cpu
  import opened Layout
  import opened Stacks
  import opened Assembler
  import opened AbstractMachine
  import opened Symbolic
  import opened Control
  import opened KernelLayout
  import opened DictionaryShape
  import opened Words
  import Placement
  import S = SimpleRoutines
  import M = MulRoutine
  import N = NumberRoutine
  import W = WordRoutine
  import F = FindRoutine

  /** The data with `outer` below the running definition's own return-stack cells. */
  function Under(d: Data, outer: Stack): Data { d.(rs := Over(d.rs, outer)) }

  /** The steps of a routine whose length does not depend on the data. */
  function FixedCost(p: Prim): nat {
    if IsShuffle(p) then S.ShuffleCost(p)
    else if IsPairTest(p) then 8
    else if p == ZEROEQ || p == ZEROLT then 6
    else if p == NEGATE || p == PLUS || p == MINUS || p == BITAND || p == BITOR then 5
    else if IsDeviceWord(p) || p == TOR || p == FROMR then 3
    else 4
  }

  function TextCost(c: Context, p: Prim, text: seq<int>): nat {
    if p == NUMBER then N.NumberCost(text) else F.FindCost(c.dict, text)
  }

  /** The steps a word's routine takes, from its entry back to `NEXT`. */
  function RoutineCost(c: Context, p: Prim, d: Data): nat {
    if d.ds.Empty? then FixedCost(p)
    else
      var b := d.ds.top;
      if p == MUL then (if b < 0 then 0 else 6 * b + 6)
      else if p == ABS then (if b < 0 then 6 else 4)
      else if p == NUMBER || p == FIND then
        if Counted(d.low, b) then TextCost(c, p, CountedText(d.low, b)) else 0
      else if p == WORD then
        if NextToken(d.input, b).Some? then W.WordCost(Leading(d.input, b), NextToken(d.input, b).value.text) else 0
      else FixedCost(p)
  }

  lemma ShuffleCosts(c: Context, p: Prim, d: Data)
    requires IsShuffle(p)
    ensures RoutineCost(c, p, d) == S.ShuffleCost(p)
  {
    hide S.ShuffleCost, TextCost, NextToken, Counted, CountedText;
  }

  lemma TransferCosts(c: Context, p: Prim, d: Data)
    requires IsReturnWord(p) || IsDeviceWord(p)
    ensures RoutineCost(c, p, d) == if p == RFETCH then 4 else 3
  {
    hide S.ShuffleCost, TextCost, NextToken, Counted, CountedText;
  }

  lemma MemoryCosts(c: Context, p: Prim, d: Data)
    requires IsMemory(p)
    ensures RoutineCost(c, p, d) == 4
  {
    hide S.ShuffleCost, TextCost, NextToken, Counted, CountedText;
  }

  lemma TestCosts(c: Context, p: Prim, d: Data)
    requires IsZeroTest(p) || IsPairTest(p)
    ensures RoutineCost(c, p, d) == if IsZeroTest(p) then 6 else 8
  {
    hide S.ShuffleCost, TextCost, NextToken, Counted, CountedText;
  }

  predicate IsStraightUnary(p: Prim) { p == NEGATE || p == ONEPLUS || p == ONEMINUS || p == BITINVERT }

  predicate IsStraightBinary(p: Prim) { p == PLUS || p == MINUS || p == BITAND || p == BITOR }

  lemma StraightCosts(c: Context, p: Prim, d: Data)
    requires IsStraightUnary(p) || IsStraightBinary(p)
    ensures RoutineCost(c, p, d) == if p == NEGATE || IsStraightBinary(p) then 5 else 4
  {
    hide S.ShuffleCost, TextCost, NextToken, Counted, CountedText;
  }

  /** The machine stands at the entry of `p`, called from `ip`, with `d` over `outer`. */
  ghost predicate Calling(asm: Assembly, vm: Vm, p: Prim, ip: int, d: Data, outer: Stack) {
    && Sited(asm)
    && Ready(asm, vm, Address(asm, Entry(p)), ip, Under(d, outer))
    && Depth(d.ds) <= DATA_STACK_SIZE
    && Depth(d.rs) + Depth(outer) <= RETURN_STACK_SIZE
  }

  lemma ShuffleWord(asm: Assembly, c: Context, vm: Vm, p: Prim, ip: int, d: Data, outer: Stack)
    requires Calling(asm, vm, p, ip, d, outer) && IsShuffle(p) && Meaning(c, p, d, Depth(outer)).Some?
    ensures Returns(asm, vm, RoutineCost(c, p, d), ip, Under(Meaning(c, p, d, Depth(outer)).value, outer))
  {
    hide Meaning, RoutineCost;
    ShuffleCosts(c, p, d);
    ShuffleIs(c, p, d, Depth(outer));
    hide Sited, BlockSits, RegistersApart, Returns, Shuffle, S.ShuffleBlock, S.ShuffleCost;
    Placement.ShuffleAt(asm, p);
    ShuffleEntered(asm, vm, p, ip, Under(d, outer));
  }

  lemma ShuffleEntered(asm: Assembly, vm: Vm, p: Prim, ip: int, d: Data)
    requires IsShuffle(p) && S.Entering(asm, vm, S.ShuffleBlock(p), ip, d)
    requires Shuffle(p, d.ds).Some? && Depth(Shuffle(p, d.ds).value) <= DATA_STACK_SIZE
    ensures Returns(asm, vm, S.ShuffleCost(p), ip, d.(ds := Shuffle(p, d.ds).value))
  {
    hide S.Entering, Returns, Shuffle, S.ShuffleCost;
    if p == OVER {
      S.OverReturns(asm, vm, p, ip, d);
    } else if p == TUCK {
      S.TuckReturns(asm, vm, p, ip, d);
    } else if p == ROT {
      S.RotReturns(asm, vm, p, ip, d);
    } else if p == NROT {
      S.NrotReturns(asm, vm, p, ip, d);
    } else {
      S.ShortShuffleReturns(asm, vm, p, ip, d);
    }
  }

  lemma AbsWord(asm: Assembly, c: Context, vm: Vm, ip: int, d: Data, outer: Stack)
    requires Calling(asm, vm, ABS, ip, d, outer) && d.ds.Push?
    ensures Returns(asm, vm, RoutineCost(c, ABS, d), ip,
                    Under(d.(ds := Push(Unary(ABS, d.ds.top).value, d.ds.rest)), outer))
  {
    hide Sited, BlockSits, RegistersApart, Returns;
    Placement.AbsAt(asm);
    S.AbsReturns(asm, vm, ip, Under(d, outer));
  }

  lemma ZeroTestWord(asm: Assembly, c: Context, vm: Vm, p: Prim, ip: int, d: Data, outer: Stack)
    requires Calling(asm, vm, p, ip, d, outer) && d.ds.Push? && IsZeroTest(p)
    ensures Returns(asm, vm, RoutineCost(c, p, d), ip, Under(d.(ds := Push(Unary(p, d.ds.top).value, d.ds.rest)), outer))
  {
    hide RoutineCost, Sited, BlockSits, RegistersApart, Returns, S.ComparisonSits, S.ComparisonOf;
    TestCosts(c, p, d);
    Placement.ComparisonAt(asm, p);
    ComparisonEntered(asm, vm, p, ip, Under(d, outer));
    S.ZeroTestReturns(asm, vm, p, ip, Under(d, outer));
  }

  lemma StraightUnaryWord(asm: Assembly, c: Context, vm: Vm, p: Prim, ip: int, d: Data, outer: Stack)
    requires Calling(asm, vm, p, ip, d, outer) && d.ds.Push? && IsStraightUnary(p)
    ensures Returns(asm, vm, RoutineCost(c, p, d), ip, Under(d.(ds := Push(Unary(p, d.ds.top).value, d.ds.rest)), outer))
  {
    hide RoutineCost, Sited, BlockSits, RegistersApart, Returns, S.UnaryBlock;
    StraightCosts(c, p, d);
    Placement.UnaryAt(asm, p);
    S.UnaryReturns(asm, vm, p, ip, Under(d, outer));
  }

  lemma UnaryWord(asm: Assembly, c: Context, vm: Vm, p: Prim, ip: int, d: Data, outer: Stack)
    requires Calling(asm, vm, p, ip, d, outer) && d.ds.Push? && Unary(p, d.ds.top).Some?
    ensures Returns(asm, vm, RoutineCost(c, p, d), ip, Under(d.(ds := Push(Unary(p, d.ds.top).value, d.ds.rest)), outer))
  {
    hide Calling, Returns, RoutineCost;
    if p == ABS {
      AbsWord(asm, c, vm, ip, d, outer);
    } else if IsZeroTest(p) {
      ZeroTestWord(asm, c, vm, p, ip, d, outer);
    } else {
      StraightUnaryWord(asm, c, vm, p, ip, d, outer);
    }
  }

  lemma ComparisonEntered(asm: Assembly, vm: Vm, p: Prim, ip: int, d: Data)
    requires RegistersApart(asm) && S.ComparisonSits(asm, S.ComparisonOf(p), vm.pc) && Ready(asm, vm, vm.pc, ip, d)
    requires Depth(d.ds) <= DATA_STACK_SIZE
    ensures S.Entering(asm, vm, S.ComparisonOf(p).test, ip, d)
  {
    hide BlockSits, RegistersApart, Ready;
  }

  lemma MulWord(asm: Assembly, c: Context, vm: Vm, ip: int, d: Data, outer: Stack)
    requires Calling(asm, vm, MUL, ip, d, outer) && d.ds.Push? && d.ds.rest.Push? && d.ds.top >= 0
    ensures Returns(asm, vm, RoutineCost(c, MUL, d), ip,
                    Under(d.(ds := Push(d.ds.rest.top * d.ds.top, d.ds.rest.rest)), outer))
  {
    hide Sited, BlockSits, RegistersApart, Returns, M.MulSits;
    Placement.MulAt(asm);
    M.MulReturns(asm, vm, ip, Under(d, outer));
  }

  lemma PairTestWord(asm: Assembly, c: Context, vm: Vm, p: Prim, ip: int, d: Data, outer: Stack)
    requires Calling(asm, vm, p, ip, d, outer) && d.ds.Push? && d.ds.rest.Push? && IsPairTest(p)
    ensures Returns(asm, vm, RoutineCost(c, p, d), ip,
                    Under(d.(ds := Push(Binary(p, d.ds.rest.top, d.ds.top).value, d.ds.rest.rest)), outer))
  {
    hide RoutineCost, Sited, BlockSits, RegistersApart, Returns, S.ComparisonSits, S.ComparisonOf;
    TestCosts(c, p, d);
    Placement.ComparisonAt(asm, p);
    ComparisonEntered(asm, vm, p, ip, Under(d, outer));
    S.PairTestReturns(asm, vm, p, ip, Under(d, outer));
  }

  lemma StraightBinaryWord(asm: Assembly, c: Context, vm: Vm, p: Prim, ip: int, d: Data, outer: Stack)
    requires Calling(asm, vm, p, ip, d, outer) && d.ds.Push? && d.ds.rest.Push? && IsStraightBinary(p)
    ensures Returns(asm, vm, RoutineCost(c, p, d), ip,
                    Under(d.(ds := Push(Binary(p, d.ds.rest.top, d.ds.top).value, d.ds.rest.rest)), outer))
  {
    hide RoutineCost, Sited, BlockSits, RegistersApart, Returns, S.BinaryBlock;
    StraightCosts(c, p, d);
    Placement.BinaryAt(asm, p);
    if p == PLUS || p == MINUS {
      S.SumReturns(asm, vm, p, ip, Under(d, outer));
    } else {
      S.LogicReturns(asm, vm, p, ip, Under(d, outer));
    }
  }

  lemma BinaryWord(asm: Assembly, c: Context, vm: Vm, p: Prim, ip: int, d: Data, outer: Stack)
    requires Calling(asm, vm, p, ip, d, outer) && d.ds.Push? && d.ds.rest.Push?
    requires Binary(p, d.ds.rest.top, d.ds.top).Some?
    ensures Returns(asm, vm, RoutineCost(c, p, d), ip,
                    Under(d.(ds := Push(Binary(p, d.ds.rest.top, d.ds.top).value, d.ds.rest.rest)), outer))
  {
    hide Calling, Returns, RoutineCost;
    if p == MUL {
      MulWord(asm, c, vm, ip, d, outer);
    } else if IsPairTest(p) {
      PairTestWord(asm, c, vm, p, ip, d, outer);
    } else {
      StraightBinaryWord(asm, c, vm, p, ip, d, outer);
    }
  }

  lemma FetchWord(asm: Assembly, c: Context, vm: Vm, p: Prim, ip: int, d: Data, outer: Stack)
    requires Calling(asm, vm, p, ip, d, outer) && (p == FETCH || p == CFETCH) && Meaning(c, p, d, Depth(outer)).Some?
    ensures Returns(asm, vm, RoutineCost(c, p, d), ip, Under(Meaning(c, p, d, Depth(outer)).value, outer))
  {
    hide Meaning, RoutineCost, Sited, BlockSits, RegistersApart, Returns;
    MemoryCosts(c, p, d);
    FetchIs(c, p, d, Depth(outer));
    Placement.MemoryAt(asm, p);
    S.FetchReturns(asm, vm, p, ip, Under(d, outer));
  }

  lemma StoreWord(asm: Assembly, c: Context, vm: Vm, p: Prim, ip: int, d: Data, outer: Stack)
    requires Calling(asm, vm, p, ip, d, outer) && (p == STOREW || p == CSTOREW) && Meaning(c, p, d, Depth(outer)).Some?
    ensures Returns(asm, vm, RoutineCost(c, p, d), ip, Under(Meaning(c, p, d, Depth(outer)).value, outer))
  {
    hide Meaning, RoutineCost, Sited, BlockSits, RegistersApart, Returns;
    MemoryCosts(c, p, d);
    StoreIs(c, p, d, Depth(outer));
    Placement.MemoryAt(asm, p);
    S.StoreReturns(asm, vm, p, ip, Under(d, outer));
  }

  lemma ToRWord(asm: Assembly, c: Context, vm: Vm, ip: int, d: Data, outer: Stack)
    requires Calling(asm, vm, TOR, ip, d, outer) && Meaning(c, TOR, d, Depth(outer)).Some?
    ensures Returns(asm, vm, RoutineCost(c, TOR, d), ip, Under(Meaning(c, TOR, d, Depth(outer)).value, outer))
  {
    hide Meaning, RoutineCost, Sited, BlockSits, RegistersApart, Returns;
    TransferCosts(c, TOR, d);
    ReturnIs(c, TOR, d, Depth(outer));
    Placement.TransferAt(asm, TOR);
    DepthOver(d.rs, outer);
    S.ToRReturns(asm, vm, ip, Under(d, outer));
  }

  lemma FromRWord(asm: Assembly, c: Context, vm: Vm, ip: int, d: Data, outer: Stack)
    requires Calling(asm, vm, FROMR, ip, d, outer) && Meaning(c, FROMR, d, Depth(outer)).Some?
    ensures Returns(asm, vm, RoutineCost(c, FROMR, d), ip, Under(Meaning(c, FROMR, d, Depth(outer)).value, outer))
  {
    hide Meaning, RoutineCost, Sited, BlockSits, RegistersApart, Returns;
    TransferCosts(c, FROMR, d);
    ReturnIs(c, FROMR, d, Depth(outer));
    Placement.TransferAt(asm, FROMR);
    DepthOver(d.rs, outer);
    S.FromRReturns(asm, vm, ip, Under(d, outer));
  }

  lemma RFetchWord(asm: Assembly, c: Context, vm: Vm, ip: int, d: Data, outer: Stack)
    requires Calling(asm, vm, RFETCH, ip, d, outer) && Meaning(c, RFETCH, d, Depth(outer)).Some?
    ensures Returns(asm, vm, RoutineCost(c, RFETCH, d), ip, Under(Meaning(c, RFETCH, d, Depth(outer)).value, outer))
  {
    hide Meaning, RoutineCost, Sited, BlockSits, RegistersApart, Returns;
    TransferCosts(c, RFETCH, d);
    ReturnIs(c, RFETCH, d, Depth(outer));
    Placement.TransferAt(asm, RFETCH);
    DepthOver(d.rs, outer);
    S.RFetchReturns(asm, vm, ip, Under(d, outer));
  }

  lemma KeyWord(asm: Assembly, c: Context, vm: Vm, ip: int, d: Data, outer: Stack)
    requires Calling(asm, vm, KEY, ip, d, outer) && Meaning(c, KEY, d, Depth(outer)).Some?
    ensures Returns(asm, vm, RoutineCost(c, KEY, d), ip, Under(Meaning(c, KEY, d, Depth(outer)).value, outer))
  {
    hide Meaning, RoutineCost, Sited, BlockSits, RegistersApart, Returns;
    TransferCosts(c, KEY, d);
    DeviceIs(c, KEY, d, Depth(outer));
    Placement.TransferAt(asm, KEY);
    S.KeyReturns(asm, vm, ip, Under(d, outer));
  }

  lemma EmitWord(asm: Assembly, c: Context, vm: Vm, ip: int, d: Data, outer: Stack)
    requires Calling(asm, vm, EMIT, ip, d, outer) && Meaning(c, EMIT, d, Depth(outer)).Some?
    ensures Returns(asm, vm, RoutineCost(c, EMIT, d), ip, Under(Meaning(c, EMIT, d, Depth(outer)).value, outer))
  {
    hide Meaning, RoutineCost, Sited, BlockSits, RegistersApart, Returns;
    TransferCosts(c, EMIT, d);
    DeviceIs(c, EMIT, d, Depth(outer));
    Placement.TransferAt(asm, EMIT);
    S.EmitReturns(asm, vm, ip, Under(d, outer));
  }

  lemma TwoPushed(x: int, y: int, s: Stack)
    ensures Depth(Push(x, Push(y, s))) == 2 + Depth(s)
  {
    assert Depth(Push(y, s)) == 1 + Depth(s);
  }

  lemma NumberMeans(c: Context, d: Data, depth: nat)
    requires Meaning(c, NUMBER, d, depth).Some?
    ensures d.ds.Push? && Counted(d.low, d.ds.top) && Depth(d.ds) < DATA_STACK_SIZE
    ensures Meaning(c, NUMBER, d, depth).value == d.(ds := N.NumberStack(CountedText(d.low, d.ds.top), d.ds.rest))
  {
    hide Meaning, ParseNumber, CountedText, Depth;
    NumberIs(c, d, depth);
    TwoPushed(0, 0, d.ds.rest);
    if ParseNumber(CountedText(d.low, d.ds.top)).Some? {
      TwoPushed(1, ParseNumber(CountedText(d.low, d.ds.top)).value, d.ds.rest);
    }
    DepthRest(d.ds);
  }

  lemma DepthRest(s: Stack)
    requires s.Push?
    ensures Depth(s) == 1 + Depth(s.rest)
  {
  }

  lemma NumberWord(asm: Assembly, c: Context, vm: Vm, ip: int, d: Data, outer: Stack)
    requires Calling(asm, vm, NUMBER, ip, d, outer) && Meaning(c, NUMBER, d, Depth(outer)).Some?
    ensures Returns(asm, vm, RoutineCost(c, NUMBER, d), ip, Under(Meaning(c, NUMBER, d, Depth(outer)).value, outer))
  {
    hide Meaning, Sited, Returns, N.NumberSits, CountedText, N.NumberCost, N.NumberStack;
    NumberMeans(c, d, Depth(outer));
    Placement.NumberAt(asm);
    N.NumberReturns(asm, vm, ip, Under(d, outer));
  }

  /** Cutting a token off the input, seen as the pieces it consists of. */
  lemma NextTokenSplits(input: seq<int>, delim: int)
    requires NextToken(input, delim).Some?
    ensures var t := NextToken(input, delim).value; var k := Leading(input, delim);
      && k <= |input| && (forall i :: 0 <= i < k ==> input[i] == delim)
      && t.text != [] && W.Splits(input[k..], t.text, delim, t.rest)
  {
    LeadingRun(input, delim);
    var body := input[Leading(input, delim)..];
    TokenRun(body, delim);
  }

  lemma {:induction false} LeadingRun(input: seq<int>, delim: int)
    ensures var k := Leading(input, delim);
      && k <= |input| && (forall i :: 0 <= i < k ==> input[i] == delim)
      && (k < |input| ==> input[k] != delim)
  {
    if input != [] && input[0] == delim {
      LeadingRun(input[1..], delim);
      forall i | 0 <= i < Leading(input, delim)
        ensures input[i] == delim
      {
        if i > 0 {
          assert input[i] == input[1..][i - 1];
        }
      }
    }
  }

  lemma {:induction false} TokenRun(body: seq<int>, delim: int)
    ensures var n := TokenLength(body, delim);
      n <= |body| && delim !in body[..n] && (n < |body| ==> body[n] == delim)
  {
    if body != [] && body[0] != delim {
      TokenRun(body[1..], delim);
      var n := TokenLength(body, delim);
      assert body[..n] == [body[0]] + body[1..][..n - 1];
    }
  }

  lemma WordWord(asm: Assembly, c: Context, vm: Vm, ip: int, d: Data, outer: Stack)
    requires Calling(asm, vm, WORD, ip, d, outer) && Meaning(c, WORD, d, Depth(outer)).Some?
    ensures Returns(asm, vm, RoutineCost(c, WORD, d), ip, Under(Meaning(c, WORD, d, Depth(outer)).value, outer))
  {
    hide Meaning, Sited, Returns, W.WordSits, NextToken, W.Splits, WithCounted;
    WordIs(c, d, Depth(outer));
    Placement.WordAt(asm);
    NextTokenSplits(d.input, d.ds.top);
    var t := NextToken(d.input, d.ds.top).value;
    W.WordReturns(asm, vm, ip, Under(d, outer), Leading(d.input, d.ds.top), t.text, t.rest);
  }

  lemma FindMeans(c: Context, d: Data, depth: nat)
    requires Meaning(c, FIND, d, depth).Some?
    ensures d.ds.Push? && Counted(d.low, d.ds.top) && Depth(d.ds) < DATA_STACK_SIZE
    ensures var answer := Found(c.dict, CountedText(d.low, d.ds.top));
      Meaning(c, FIND, d, depth).value == d.(ds := Push(answer.1, Push(answer.0, d.ds.rest)))
  {
    hide Meaning, Found, CountedText;
    FindIs(c, d, depth);
    assert FindMeaning(c, d, d.ds.top, d.ds.rest).Some?;
    var answer := Found(c.dict, CountedText(d.low, d.ds.top));
    assert Depth(d.ds) == 1 + Depth(d.ds.rest);
    assert Depth(Push(answer.0, d.ds.rest)) == 1 + Depth(d.ds.rest);
  }

  lemma FindWord(asm: Assembly, c: Context, vm: Vm, ip: int, d: Data, outer: Stack)
    requires Calling(asm, vm, FIND, ip, d, outer) && Meaning(c, FIND, d, Depth(outer)).Some? && Chain(d.low, c.dict)
    ensures Returns(asm, vm, RoutineCost(c, FIND, d), ip, Under(Meaning(c, FIND, d, Depth(outer)).value, outer))
  {
    hide Meaning, Sited, Returns, F.FindSits, Found, CountedText, F.FindCost, Chain;
    FindMeans(c, d, Depth(outer));
    Placement.FindAt(asm);
    F.FindReturns(asm, vm, ip, Under(d, outer), c.dict);
  }

  /** The contract of every CODE word that has one: wherever the word has a meaning, its machine
      code reaches `NEXT` in exactly `RoutineCost` steps with that meaning, `IP` and everything
      below the running definition's return-stack cells untouched. */
  lemma PrimitiveReturns(asm: Assembly, c: Context, vm: Vm, p: Prim, ip: int, d: Data, outer: Stack)
    requires Calling(asm, vm, p, ip, d, outer) && Meaning(c, p, d, Depth(outer)).Some?
    requires p == FIND ==> Chain(d.low, c.dict)
    ensures Returns(asm, vm, RoutineCost(c, p, d), ip, Under(Meaning(c, p, d, Depth(outer)).value, outer))
  {
    hide Calling, Returns, RoutineCost, Chain;
    if IsShuffle(p) {
      ShuffleWord(asm, c, vm, p, ip, d, outer);
    } else if p == FETCH || p == CFETCH {
      FetchWord(asm, c, vm, p, ip, d, outer);
    } else if p == STOREW || p == CSTOREW {
      StoreWord(asm, c, vm, p, ip, d, outer);
    } else if p == TOR {
      ToRWord(asm, c, vm, ip, d, outer);
    } else if p == FROMR {
      FromRWord(asm, c, vm, ip, d, outer);
    } else if p == RFETCH {
      RFetchWord(asm, c, vm, ip, d, outer);
    } else if p == KEY {
      KeyWord(asm, c, vm, ip, d, outer);
    } else if p == EMIT {
      EmitWord(asm, c, vm, ip, d, outer);
    } else if p == NUMBER {
      NumberWord(asm, c, vm, ip, d, outer);
    } else if p == WORD {
      WordWord(asm, c, vm, ip, d, outer);
    } else if p == FIND {
      FindWord(asm, c, vm, ip, d, outer);
    } else if Unary(p, d.ds.top).Some? {
      UnaryWord(asm, c, vm, p, ip, d, outer);
    } else {
      BinaryWord(asm, c, vm, p, ip, d, outer);
    }
  }
}
