/** The CODE words where they have no meaning: how many steps they take before the one that is
    refused, and the one that never ends. */
module Troubles {
  import opened Wrappers
  import opened Isa
  import opened Cpu
  import opened Layout
  import opened Stacks
  import opened Assembler
  import opened AbstractMachine
  import opened KernelSource
  import opened Symbolic
  import opened Control
  import opened KernelLayout
  import opened DictionaryShape
  import opened Words
  import opened Primitives
  import Placement
  import S = SimpleRoutines
  import M = MulRoutine
  import N = NumberRoutine
  import W = WordRoutine
  import F = FindRoutine

  /** The steps a word's routine takes, from its entry, before the one that is refused. */
  function TroubleCost(c: Context, p: Prim, d: Data): nat {
    if Depth(d.ds) < Operands(p) then Depth(d.ds)
    else if p == TOR then 1
    else if p == FROMR then (if d.rs.Empty? then 0 else 1)
    else if p == RFETCH then (if d.rs.Empty? then 0 else 2)
    else if p == KEY then (if d.input == [] then 0 else 1)
    else if p == DUP then 2
    else if p == OVER || p == TUCK then 4
    else if d.ds.Empty? then 0
    else if p == NUMBER || p == FIND then
      if Counted(d.low, d.ds.top) then TextCost(c, p, CountedText(d.low, d.ds.top)) - 2 else 0
    else if p == WORD then
      LeadingBound(d.input, d.ds.top);
      W.DryCost(Leading(d.input, d.ds.top), |d.input| - Leading(d.input, d.ds.top))
    else 0
  }

  /** Every routine that takes operands opens by popping them. */
  lemma RoutinePops(p: Prim)
    requires Operands(p) > 0
    ensures Routine(p) != [] && OpensWithPops(Routine(p)[0], Operands(p))
  {
    hide Routine, Operands;
    if p in {DUP, DROP, SWAP, OVER, ROT, NROT, NIP, TUCK} {
      ShufflePops(p);
    } else if p in {PLUS, MINUS, MUL, BITAND, BITOR, EQUALS, NOTEQUALS, LESSTHAN, GREATERTHAN, STOREW, CSTOREW} {
      PairPops(p);
    } else if p in {NEGATE, ABS, ONEPLUS, ONEMINUS, BITINVERT, ZEROEQ, ZEROLT} {
      UnaryPops(p);
    } else if p in {NUMBER, WORD, FIND} {
      TextPops(p);
    } else {
      assert p in {FETCH, CFETCH, TOR, EMIT} by { OperandsNone(p); }
      MemoryPops(p);
    }
  }

  lemma OperandsNone(p: Prim)
    ensures p in {LIT, EXIT, BYE, KEY, FROMR, RFETCH} ==> Operands(p) == 0
  {
  }

  lemma ShufflePops(p: Prim)
    requires p in {DUP, DROP, SWAP, OVER, ROT, NROT, NIP, TUCK}
    ensures Routine(p) != [] && OpensWithPops(Routine(p)[0], Operands(p))
  {
  }

  lemma PairPops(p: Prim)
    requires p in {PLUS, MINUS, MUL, BITAND, BITOR, EQUALS, NOTEQUALS, LESSTHAN, GREATERTHAN, STOREW, CSTOREW}
    ensures Routine(p) != [] && OpensWithPops(Routine(p)[0], Operands(p))
  {
  }

  lemma UnaryPops(p: Prim)
    requires p in {NEGATE, ABS, ONEPLUS, ONEMINUS, BITINVERT, ZEROEQ, ZEROLT}
    ensures Routine(p) != [] && OpensWithPops(Routine(p)[0], Operands(p))
  {
  }

  lemma MemoryPops(p: Prim)
    requires p in {FETCH, CFETCH, TOR, EMIT}
    ensures Routine(p) != [] && OpensWithPops(Routine(p)[0], Operands(p))
  {
  }

  lemma TextPops(p: Prim)
    requires p in {NUMBER, WORD, FIND}
    ensures Routine(p) != [] && OpensWithPops(Routine(p)[0], Operands(p))
  {
    hide Routine, OpensWithPops;
    if p == NUMBER {
      NumberPops();
    } else if p == WORD {
      WordPops();
    } else {
      FindPops();
    }
  }

  lemma NumberPops()
    ensures Routine(NUMBER) != [] && OpensWithPops(Routine(NUMBER)[0], 1)
  {
    assert Routine(NUMBER)[0] == NUMBER_BLOCK;
  }

  lemma WordPops()
    ensures Routine(WORD) != [] && OpensWithPops(Routine(WORD)[0], 1)
  {
    assert Routine(WORD)[0] == WORD_BLOCK;
  }

  lemma FindPops()
    ensures Routine(FIND) != [] && OpensWithPops(Routine(FIND)[0], 1)
  {
    assert Routine(FIND)[0] == FIND_BLOCK;
  }

  lemma OperandsMissing(asm: Assembly, vm: Vm, p: Prim, ip: int, d: Data, outer: Stack)
    requires Calling(asm, vm, p, ip, d, outer) && Depth(d.ds) < Operands(p)
    ensures Stumbles(asm, vm, Depth(d.ds), EmptyData)
  {
    hide Sited, Stumbles, BlockSits, OpensWithPops, Operands, Routine;
    RoutinePops(p);
    BlockAt(asm, p, 0);
    PopsRunDry(asm, Routine(p)[0], Operands(p), vm);
  }

  lemma ShuffleOverflows(asm: Assembly, vm: Vm, p: Prim, ip: int, d: Data, outer: Stack)
    requires Calling(asm, vm, p, ip, d, outer) && IsShuffle(p) && ShuffleMeaning(p, d).None?
    requires Depth(d.ds) >= Operands(p)
    ensures Stumbles(asm, vm, if p == DUP then 2 else 4, FullData) && (p == DUP || p == OVER || p == TUCK)
  {
    hide Sited, BlockSits, RegistersApart, Stumbles;
    ShuffleFills(p, d.ds);
    assert Depth(Shuffle(p, d.ds).value) > DATA_STACK_SIZE;
    hide Shuffle, Depth;
    Placement.ShuffleAt(asm, p);
    if p == DUP {
      S.DupOverflows(asm, vm, ip, Under(d, outer));
    } else {
      S.CopyOverflows(asm, vm, p, ip, Under(d, outer));
    }
  }

  /** Only the words that copy can find the stack too full. */
  lemma ShuffleFills(p: Prim, s: Stack)
    requires IsShuffle(p) && Depth(s) >= Operands(p)
    ensures Shuffle(p, s).Some?
    ensures Depth(Shuffle(p, s).value)
         == Depth(s) + if p == DROP || p == NIP then -1 else if p == DUP || p == OVER || p == TUCK then 1 else 0
  {
    assert s.Push? && Depth(s) == 1 + Depth(s.rest);
    if Operands(p) >= 2 {
      assert s.rest.Push? && Depth(s.rest) == 1 + Depth(s.rest.rest);
      var t := Shuffle(p, s).value;
      if p == TUCK {
        assert Depth(t.rest) == 2 + Depth(s.rest.rest);
      } else if Operands(p) == 3 {
        assert s.rest.rest.Push? && Depth(s.rest.rest) == 1 + Depth(s.rest.rest.rest);
        assert Depth(t.rest) == 2 + Depth(s.rest.rest.rest);
      }
    }
  }

  lemma ToRStumbles(asm: Assembly, vm: Vm, ip: int, d: Data, outer: Stack)
    requires Calling(asm, vm, TOR, ip, d, outer) && d.ds.Push? && Depth(d.rs) + Depth(outer) >= RETURN_STACK_SIZE
    ensures Stumbles(asm, vm, 1, FullReturn)
  {
    hide Sited, BlockSits, RegistersApart, Stumbles;
    Placement.TransferAt(asm, TOR);
    DepthOver(d.rs, outer);
    S.ToROverflows(asm, vm, ip, Under(d, outer));
  }

  /** `R>` and `R@` with nothing to take. */
  lemma NothingReturns(asm: Assembly, vm: Vm, p: Prim, ip: int, d: Data)
    requires (p == FROMR || p == RFETCH) && Calling(asm, vm, p, ip, d, Empty) && d.rs.Empty?
    ensures Stumbles(asm, vm, 0, EmptyReturn)
  {
    hide Sited, BlockSits, RegistersApart, Stumbles;
    Placement.TransferAt(asm, p);
    S.ReturnRunsDry(asm, vm, Placement.TransferBlock(p), ip, Under(d, Empty));
  }

  /** `R>` and `R@` with no room for what they take. */
  lemma ReturnOverflows(asm: Assembly, vm: Vm, p: Prim, ip: int, d: Data, outer: Stack)
    requires (p == FROMR || p == RFETCH) && Calling(asm, vm, p, ip, d, outer) && d.rs.Push?
    requires Depth(d.ds) >= DATA_STACK_SIZE
    ensures Stumbles(asm, vm, if p == FROMR then 1 else 2, FullData)
  {
    hide Sited, BlockSits, RegistersApart, Stumbles;
    Placement.TransferAt(asm, p);
    DepthOver(d.rs, outer);
    if p == FROMR {
      S.FromROverflows(asm, vm, ip, Under(d, outer));
    } else {
      S.RFetchOverflows(asm, vm, ip, Under(d, outer));
    }
  }

  lemma ReturnTroubleCosts(c: Context, p: Prim, d: Data)
    requires IsReturnWord(p) && Depth(d.ds) >= Operands(p)
    ensures TroubleCost(c, p, d) == if p == TOR then 1 else if d.rs.Empty? then 0 else if p == FROMR then 1 else 2
  {
    hide Leading, Counted, CountedText, TextCost, W.DryCost;
  }

  lemma ReturnWordStumbles(asm: Assembly, c: Context, vm: Vm, p: Prim, ip: int, d: Data, outer: Stack)
    requires Calling(asm, vm, p, ip, d, outer) && IsReturnWord(p) && ReturnMeaning(p, d, Depth(outer)).None?
    requires Depth(d.ds) >= Operands(p) && ReturnTrouble(p, d, Depth(outer)).Hits?
    ensures Stumbles(asm, vm, TroubleCost(c, p, d), ReturnTrouble(p, d, Depth(outer)).fault)
  {
    hide Calling, Stumbles, TroubleCost;
    ReturnTroubleCosts(c, p, d);
    if p == TOR {
      ToRStumbles(asm, vm, ip, d, outer);
    } else if d.rs.Empty? {
      NothingReturns(asm, vm, p, ip, d);
    } else {
      ReturnOverflows(asm, vm, p, ip, d, outer);
    }
  }

  lemma KeyStumbles(asm: Assembly, vm: Vm, ip: int, d: Data, outer: Stack)
    requires Calling(asm, vm, KEY, ip, d, outer) && DeviceMeaning(KEY, d).None?
    ensures Stumbles(asm, vm, if d.input == [] then 0 else 1, if d.input == [] then NoInput else FullData)
  {
    hide Sited, BlockSits, RegistersApart, Stumbles;
    Placement.TransferAt(asm, KEY);
    if d.input == [] {
      S.KeyRunsDry(asm, vm, ip, Under(d, outer));
    } else {
      S.KeyOverflows(asm, vm, ip, Under(d, outer));
    }
  }

  lemma NumberFull(d: Data)
    requires d.ds.Push? && Counted(d.low, d.ds.top) && NumberMeaning(d, d.ds.top, d.ds.rest).None?
    ensures Depth(d.ds) >= DATA_STACK_SIZE
  {
    hide ParseNumber, CountedText;
    TwoPushed(0, 0, d.ds.rest);
    if ParseNumber(CountedText(d.low, d.ds.top)).Some? {
      TwoPushed(1, ParseNumber(CountedText(d.low, d.ds.top)).value, d.ds.rest);
    }
    DepthRest(d.ds);
  }

  lemma NumberStumbles(asm: Assembly, vm: Vm, ip: int, d: Data, outer: Stack)
    requires Calling(asm, vm, NUMBER, ip, d, outer) && d.ds.Push? && Counted(d.low, d.ds.top)
    requires NumberMeaning(d, d.ds.top, d.ds.rest).None?
    ensures Stumbles(asm, vm, N.NumberCost(CountedText(d.low, d.ds.top)) - 2, FullData)
  {
    hide Sited, Stumbles, N.NumberSits, CountedText, N.NumberCost, NumberMeaning, Counted;
    NumberFull(d);
    Placement.NumberAt(asm);
    N.NumberOverflows(asm, vm, ip, Under(d, outer));
  }

  lemma FindFull(c: Context, d: Data)
    requires d.ds.Push? && Counted(d.low, d.ds.top) && FindMeaning(c, d, d.ds.top, d.ds.rest).None?
    ensures Depth(d.ds) >= DATA_STACK_SIZE
  {
    hide Found, CountedText;
    var answer := Found(c.dict, CountedText(d.low, d.ds.top));
    TwoPushed(answer.1, answer.0, d.ds.rest);
    DepthRest(d.ds);
  }

  lemma FindStumbles(asm: Assembly, c: Context, vm: Vm, ip: int, d: Data, outer: Stack)
    requires Calling(asm, vm, FIND, ip, d, outer) && d.ds.Push? && Counted(d.low, d.ds.top) && Chain(d.low, c.dict)
    requires FindMeaning(c, d, d.ds.top, d.ds.rest).None?
    ensures Stumbles(asm, vm, F.FindCost(c.dict, CountedText(d.low, d.ds.top)) - 2, FullData)
  {
    hide Sited, Stumbles, F.FindSits, CountedText, F.FindCost, FindMeaning, Chain, Counted, Depth;
    FindFull(c, d);
    Placement.FindAt(asm);
    F.FindOverflows(asm, vm, ip, Under(d, outer), c.dict);
  }

  lemma WordStumbles(asm: Assembly, vm: Vm, ip: int, d: Data, outer: Stack)
    requires Calling(asm, vm, WORD, ip, d, outer) && d.ds.Push? && RunsDry(d, d.ds.top)
    ensures Leading(d.input, d.ds.top) <= |d.input|
    ensures Stumbles(asm, vm, W.DryCost(Leading(d.input, d.ds.top), |d.input| - Leading(d.input, d.ds.top)), NoInput)
  {
    hide Sited, Stumbles, W.WordSits;
    Placement.WordAt(asm);
    LeadingRun(d.input, d.ds.top);
    var k := Leading(d.input, d.ds.top);
    TokenRun(d.input[k..], d.ds.top);
    assert d.input[k..][..|d.input[k..]|] == d.input[k..];
    W.WordRunsDry(asm, vm, ip, Under(d, outer), k);
  }

  /** `*` by a negative number, from its entry: any number of steps, and never back at `NEXT`. */
  lemma MulForever(asm: Assembly, c: Context, vm: Vm, ip: int, d: Data, outer: Stack, n: nat)
    requires Calling(asm, vm, MUL, ip, d, outer) && Depth(d.ds) >= 2 && Meaning(c, MUL, d, Depth(outer)).None?
    ensures Steps(asm.program, vm, n).Ok? && Walks(asm, vm, n)
  {
    hide Sited, Walks, M.MulSits;
    Placement.MulAt(asm);
    assert d.ds.Push? && d.ds.rest.Push?;
    M.MulNeverReturns(asm, vm, ip, Under(d, outer), n);
  }

  /** Wherever a CODE word has no meaning because it is refused something, it is refused exactly that
      after exactly `TroubleCost` steps, without having passed through `NEXT`. */
  lemma PrimitiveStumbles(asm: Assembly, c: Context, vm: Vm, p: Prim, ip: int, d: Data, outer: Stack)
    requires Calling(asm, vm, p, ip, d, outer) && Meaning(c, p, d, Depth(outer)).None?
    requires TroubleOf(p, d, Depth(outer)).Hits? && (p == FIND ==> Chain(d.low, c.dict))
    ensures Stumbles(asm, vm, TroubleCost(c, p, d), TroubleOf(p, d, Depth(outer)).fault)
  {
    hide Calling, Stumbles, Meaning, Chain, Counted, CountedText, RunsDry, Leading, ShuffleMeaning, ReturnMeaning,
         DeviceMeaning, NumberMeaning, FindMeaning, W.DryCost, N.NumberCost, F.FindCost, Depth, ReturnTrouble;
    if Depth(d.ds) < Operands(p) {
      OperandsMissing(asm, vm, p, ip, d, outer);
    } else if IsShuffle(p) {
      ShuffleIs(c, p, d, Depth(outer));
      ShuffleOverflows(asm, vm, p, ip, d, outer);
    } else if IsReturnWord(p) {
      hide TroubleCost;
      ReturnIs(c, p, d, Depth(outer));
      ReturnWordStumbles(asm, c, vm, p, ip, d, outer);
    } else if p == KEY {
      DeviceIs(c, p, d, Depth(outer));
      KeyStumbles(asm, vm, ip, d, outer);
    } else {
      hide TroubleCost;
      assert p in {NUMBER, FIND, WORD} && d.ds.Push?;
      if p == NUMBER {
        NumberTrouble(asm, c, vm, ip, d, outer);
      } else if p == FIND {
        FindTrouble(asm, c, vm, ip, d, outer);
      } else {
        WordTrouble(asm, c, vm, ip, d, outer);
      }
    }
  }

  lemma TextCosts(c: Context, p: Prim, d: Data)
    requires (p == NUMBER || p == FIND) && d.ds.Push? && Counted(d.low, d.ds.top)
    ensures TroubleCost(c, p, d) == TextCost(c, p, CountedText(d.low, d.ds.top)) - 2
  {
    hide CountedText, TextCost, Leading;
  }

  lemma NumberTrouble(asm: Assembly, c: Context, vm: Vm, ip: int, d: Data, outer: Stack)
    requires Calling(asm, vm, NUMBER, ip, d, outer) && Meaning(c, NUMBER, d, Depth(outer)).None? && d.ds.Push?
    requires Counted(d.low, d.ds.top)
    ensures Stumbles(asm, vm, TroubleCost(c, NUMBER, d), FullData)
  {
    hide Calling, Stumbles, Meaning, Counted, CountedText, NumberMeaning, N.NumberCost, TroubleCost;
    TextCosts(c, NUMBER, d);
    NumberIs(c, d, Depth(outer));
    NumberStumbles(asm, vm, ip, d, outer);
  }

  lemma FindTrouble(asm: Assembly, c: Context, vm: Vm, ip: int, d: Data, outer: Stack)
    requires Calling(asm, vm, FIND, ip, d, outer) && Meaning(c, FIND, d, Depth(outer)).None? && d.ds.Push?
    requires Counted(d.low, d.ds.top) && Chain(d.low, c.dict)
    ensures Stumbles(asm, vm, TroubleCost(c, FIND, d), FullData)
  {
    hide Calling, Stumbles, Meaning, Counted, CountedText, FindMeaning, F.FindCost, TroubleCost, Chain;
    TextCosts(c, FIND, d);
    FindIs(c, d, Depth(outer));
    FindStumbles(asm, c, vm, ip, d, outer);
  }

  lemma WordTrouble(asm: Assembly, c: Context, vm: Vm, ip: int, d: Data, outer: Stack)
    requires Calling(asm, vm, WORD, ip, d, outer) && d.ds.Push? && RunsDry(d, d.ds.top)
    ensures Stumbles(asm, vm, TroubleCost(c, WORD, d), NoInput)
  {
    hide Calling, Stumbles, RunsDry, Leading, W.DryCost, CountedText, TextCost;
    WordStumbles(asm, vm, ip, d, outer);
  }
}
