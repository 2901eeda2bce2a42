/** The kernel's words by the names programs call them with, each name written out: which routine it
    reaches, in an image and in `ForthService`. */
module NameTable {
  import opened Isa
  import opened KernelSource
  import opened Evaluation
  import opened Building
  import opened Wrappers
  import opened ForthWords
  import KernelShape
  import KernelAssembles
  import KernelLayout
  import Agreement

  /** `name` is the name of `p` and of no other CODE word. */
  ghost predicate Names(name: string, p: Prim) { forall q: Prim :: WordName(q) == name <==> q == p }

  lemma LitExitNamed()
    ensures Names("LIT", LIT)
    ensures Names("EXIT", EXIT)
  {
  }

  lemma ByeNamed()
    ensures Names("BYE", BYE)
  {
  }

  lemma ControlNames()
    ensures Names("LIT", LIT)
    ensures Names("EXIT", EXIT)
    ensures Names("BYE", BYE)
  {
    hide Names;
    LitExitNamed();
    ByeNamed();
  }

  lemma DupDropNamed()
    ensures Names("DUP", DUP)
    ensures Names("DROP", DROP)
  {
  }

  lemma SwapOverNamed()
    ensures Names("SWAP", SWAP)
    ensures Names("OVER", OVER)
  {
  }

  lemma RotNrotNamed()
    ensures Names("ROT", ROT)
    ensures Names("-ROT", NROT)
  {
  }

  lemma NipTuckNamed()
    ensures Names("NIP", NIP)
    ensures Names("TUCK", TUCK)
  {
  }

  lemma StackNames()
    ensures Names("DUP", DUP)
    ensures Names("DROP", DROP)
    ensures Names("SWAP", SWAP)
    ensures Names("OVER", OVER)
    ensures Names("ROT", ROT)
    ensures Names("-ROT", NROT)
    ensures Names("NIP", NIP)
    ensures Names("TUCK", TUCK)
  {
    hide Names;
    DupDropNamed();
    SwapOverNamed();
    RotNrotNamed();
    NipTuckNamed();
  }

  lemma PlusMinusNamed()
    ensures Names("+", PLUS)
    ensures Names("-", MINUS)
  {
  }

  lemma MulNegateNamed()
    ensures Names("*", MUL)
    ensures Names("NEGATE", NEGATE)
  {
  }

  lemma AbsOneplusNamed()
    ensures Names("ABS", ABS)
    ensures Names("1+", ONEPLUS)
  {
  }

  lemma OneminusNamed()
    ensures Names("1-", ONEMINUS)
  {
  }

  lemma ArithmeticNames()
    ensures Names("+", PLUS)
    ensures Names("-", MINUS)
    ensures Names("*", MUL)
    ensures Names("NEGATE", NEGATE)
    ensures Names("ABS", ABS)
    ensures Names("1+", ONEPLUS)
    ensures Names("1-", ONEMINUS)
  {
    hide Names;
    PlusMinusNamed();
    MulNegateNamed();
    AbsOneplusNamed();
    OneminusNamed();
  }

  lemma FetchStorewNamed()
    ensures Names("@", FETCH)
    ensures Names("!", STOREW)
  {
  }

  lemma CfetchCstorewNamed()
    ensures Names("C@", CFETCH)
    ensures Names("C!", CSTOREW)
  {
  }

  lemma TorFromrNamed()
    ensures Names(">R", TOR)
    ensures Names("R>", FROMR)
  {
  }

  lemma RfetchNamed()
    ensures Names("R@", RFETCH)
  {
  }

  lemma MemoryNames()
    ensures Names("@", FETCH)
    ensures Names("!", STOREW)
    ensures Names("C@", CFETCH)
    ensures Names("C!", CSTOREW)
    ensures Names(">R", TOR)
    ensures Names("R>", FROMR)
    ensures Names("R@", RFETCH)
  {
    hide Names;
    FetchStorewNamed();
    CfetchCstorewNamed();
    TorFromrNamed();
    RfetchNamed();
  }

  lemma EqualsNotequalsNamed()
    ensures Names("=", EQUALS)
    ensures Names("<>", NOTEQUALS)
  {
  }

  lemma LessthanGreaterthanNamed()
    ensures Names("<", LESSTHAN)
    ensures Names(">", GREATERTHAN)
  {
  }

  lemma ZeroTestsNamed()
    ensures Names("0=", ZEROEQ)
    ensures Names("0<", ZEROLT)
  {
  }

  lemma ComparisonNames()
    ensures Names("=", EQUALS)
    ensures Names("<>", NOTEQUALS)
    ensures Names("<", LESSTHAN)
    ensures Names(">", GREATERTHAN)
    ensures Names("0=", ZEROEQ)
    ensures Names("0<", ZEROLT)
  {
    hide Names;
    EqualsNotequalsNamed();
    LessthanGreaterthanNamed();
    ZeroTestsNamed();
  }

  lemma BitandBitorNamed()
    ensures Names("AND", BITAND)
    ensures Names("OR", BITOR)
  {
  }

  lemma BitinvertNamed()
    ensures Names("INVERT", BITINVERT)
  {
  }

  lemma LogicNames()
    ensures Names("AND", BITAND)
    ensures Names("OR", BITOR)
    ensures Names("INVERT", BITINVERT)
  {
    hide Names;
    BitandBitorNamed();
    BitinvertNamed();
  }

  lemma KeyEmitNamed()
    ensures Names("KEY", KEY)
    ensures Names("EMIT", EMIT)
  {
  }

  lemma NumberNamed()
    ensures Names("NUMBER", NUMBER)
  {
  }

  lemma WordFindNamed()
    ensures Names("WORD", WORD)
    ensures Names("FIND", FIND)
  {
  }

  lemma TextNames()
    ensures Names("KEY", KEY)
    ensures Names("EMIT", EMIT)
    ensures Names("NUMBER", NUMBER)
    ensures Names("WORD", WORD)
    ensures Names("FIND", FIND)
  {
    hide Names;
    KeyEmitNamed();
    NumberNamed();
    WordFindNamed();
  }

  /** A name reaches its routine in every image none of whose colon words takes a kernel word's name. */
  lemma NameBound(colon: seq<WordSpec>, name: string, p: Prim)
    requires Names(name, p)
    requires (forall w :: w in colon ==> w.ColonWord?) && Agreement.Unambiguous(AllWords(colon))
    ensures Unshadowed(AllWords(colon), name, p)
  {
    hide WordName, AllWords, Agreement.Unambiguous, PRIMITIVES, KernelShape.Order;
    KernelLayout.EveryPrim(p);
    var k :| 0 <= k < |PRIMITIVES| && PRIMITIVES[k] == p;
    KernelAssembles.InOrder(k);
    forall j | k < j < |PRIMITIVES|
      ensures WordName(PRIMITIVES[j]) != name
    {
      KernelAssembles.InOrder(j);
    }
    Agreement.AllWordsSize(colon);
    Agreement.KernelWordBound(colon, k, |AllWords(colon)|);
    assert AllWords(colon)[..|AllWords(colon)|] == AllWords(colon);
  }

  /** And in `ForthService` with its minimal words, if it has that one. */
  lemma NameKnown(name: string, p: Prim)
    requires Names(name, p)
    ensures Shared(p) ==> name in Minimal(PRIMITIVES) && Minimal(PRIMITIVES)[name] == Primitive(p)
    ensures !Shared(p) ==> (name in Minimal(PRIMITIVES) <==> name in OTHERS)
  {
    hide WordName, PRIMITIVES, KernelShape.Order, Minimal, Shared, OTHERS;
    KernelLayout.EveryPrim(p);
    var k :| 0 <= k < |PRIMITIVES| && PRIMITIVES[k] == p;
    KernelAssembles.InOrder(k);
    if Shared(p) {
      forall j | k < j < |PRIMITIVES|
        ensures WordName(PRIMITIVES[j]) != WordName(PRIMITIVES[k])
      {
        KernelAssembles.InOrder(j);
      }
      Agreement.MinimalEntry(PRIMITIVES, k);
    } else {
      MinimalNames(PRIMITIVES, name);
    }
  }

  /** A name no shared primitive has is an entry only if it is one of the others. */
  lemma {:induction false} MinimalNames(prims: seq<Prim>, name: string)
    requires forall p: Prim :: WordName(p) == name ==> !Shared(p)
    ensures name in Minimal(prims) <==> name in OTHERS
    ensures name in OTHERS ==> Minimal(prims)[name] == OTHERS[name]
  {
    hide WordName, Shared, OTHERS;
    if prims != [] {
      MinimalNames(prims[..|prims| - 1], name);
    }
  }

  /** The words of the kernel's own image, in the order `build` installs them, none of them immediate. */
  lemma Words0()
    ensures |PRIMITIVES| == 39
    ensures PRIMITIVES[0] == LIT
    ensures PRIMITIVES[1] == EXIT
    ensures PRIMITIVES[2] == BYE
    ensures PRIMITIVES[3] == DUP
    ensures PRIMITIVES[4] == DROP
    ensures PRIMITIVES[5] == SWAP
    ensures PRIMITIVES[6] == OVER
    ensures PRIMITIVES[7] == ROT
    ensures PRIMITIVES[8] == NROT
    ensures PRIMITIVES[9] == NIP
  {
  }

  lemma Words10()
    ensures |PRIMITIVES| == 39
    ensures PRIMITIVES[10] == TUCK
    ensures PRIMITIVES[11] == PLUS
    ensures PRIMITIVES[12] == MINUS
    ensures PRIMITIVES[13] == MUL
    ensures PRIMITIVES[14] == NEGATE
    ensures PRIMITIVES[15] == ABS
    ensures PRIMITIVES[16] == ONEPLUS
    ensures PRIMITIVES[17] == ONEMINUS
    ensures PRIMITIVES[18] == FETCH
    ensures PRIMITIVES[19] == STOREW
  {
  }

  lemma Words20()
    ensures |PRIMITIVES| == 39
    ensures PRIMITIVES[20] == CFETCH
    ensures PRIMITIVES[21] == CSTOREW
    ensures PRIMITIVES[22] == TOR
    ensures PRIMITIVES[23] == FROMR
    ensures PRIMITIVES[24] == RFETCH
    ensures PRIMITIVES[25] == EQUALS
    ensures PRIMITIVES[26] == NOTEQUALS
    ensures PRIMITIVES[27] == LESSTHAN
    ensures PRIMITIVES[28] == GREATERTHAN
    ensures PRIMITIVES[29] == ZEROEQ
  {
  }

  lemma Words30()
    ensures |PRIMITIVES| == 39
    ensures PRIMITIVES[30] == ZEROLT
    ensures PRIMITIVES[31] == BITAND
    ensures PRIMITIVES[32] == BITOR
    ensures PRIMITIVES[33] == BITINVERT
    ensures PRIMITIVES[34] == KEY
    ensures PRIMITIVES[35] == EMIT
    ensures PRIMITIVES[36] == NUMBER
    ensures PRIMITIVES[37] == WORD
    ensures PRIMITIVES[38] == FIND
  {
  }

  const KERNEL_NAMES: seq<string> :=
    ["LIT", "EXIT", "BYE", "DUP", "DROP", "SWAP", "OVER", "ROT", "-ROT", "NIP", "TUCK", "+", "-",
     "*", "NEGATE", "ABS", "1+", "1-", "@", "!", "C@", "C!", ">R", "R>", "R@", "=", "<>", "<", ">",
     "0=", "0<", "AND", "OR", "INVERT", "KEY", "EMIT", "NUMBER", "WORD", "FIND"]

  lemma Row0(k: nat)
    requires 0 <= k < 10
    ensures |PRIMITIVES| == 39 && |KERNEL_NAMES| == 39 && Names(KERNEL_NAMES[k], PRIMITIVES[k])
  {
    hide Names, WordName, PRIMITIVES;
    Words0();
    ControlNames();
    StackNames();
  }

  lemma Row10(k: nat)
    requires 10 <= k < 20
    ensures |PRIMITIVES| == 39 && |KERNEL_NAMES| == 39 && Names(KERNEL_NAMES[k], PRIMITIVES[k])
  {
    hide Names, WordName, PRIMITIVES;
    Words10();
    StackNames();
    ArithmeticNames();
    MemoryNames();
  }

  lemma Row20(k: nat)
    requires 20 <= k < 30
    ensures |PRIMITIVES| == 39 && |KERNEL_NAMES| == 39 && Names(KERNEL_NAMES[k], PRIMITIVES[k])
  {
    hide Names, WordName, PRIMITIVES;
    Words20();
    MemoryNames();
    ComparisonNames();
  }

  lemma Row30(k: nat)
    requires 30 <= k < 39
    ensures |PRIMITIVES| == 39 && |KERNEL_NAMES| == 39 && Names(KERNEL_NAMES[k], PRIMITIVES[k])
  {
    hide Names, WordName, PRIMITIVES;
    Words30();
    ComparisonNames();
    LogicNames();
    TextNames();
  }

  /** The table row by row: the k-th word of the kernel has the k-th name, and no other CODE word has it. */
  lemma Rows(k: nat)
    requires k < 39
    ensures |PRIMITIVES| == 39 && |KERNEL_NAMES| == 39 && Names(KERNEL_NAMES[k], PRIMITIVES[k])
  {
    hide Names, WordName, PRIMITIVES, KERNEL_NAMES;
    if k < 10 {
      Row0(k);
    } else if k < 20 {
      Row10(k);
    } else if k < 30 {
      Row20(k);
    } else {
      Row30(k);
    }
  }

  lemma KernelTable(k: nat)
    requires k < 39
    ensures |KERNEL_NAMES| == 39 && |AllWords([])| == 39
    ensures AllWords([])[k].CodeWord? && AllWords([])[k].name == KERNEL_NAMES[k] && !AllWords([])[k].immediate
  {
    hide WordName, AllWords, PRIMITIVES, KERNEL_NAMES;
    Rows(k);
    Agreement.AllWordsSize([]);
    AllWordsAt([], k);
  }
}
