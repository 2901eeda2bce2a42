/** The kernel's source assembles: no label is defined twice, every label is defined, and every
    line is one the assembler takes. */
module KernelAssembles {
  import opened Wrappers
  import opened Isa
  import opened Assembler
  import opened AssemblerAcceptance
  import opened Forms
  import opened KernelSource
  import opened Control
  import opened KernelShape
  import opened KernelLayout

  /** The labels of `forms` are in ascending order, all from `lo` and below `hi`. */
  ghost predicate Ascending(forms: seq<Form>, lo: int, hi: int) {
    && (forall i :: 0 <= i < |forms| && forms[i].At? ==> lo <= Key(forms[i].l) < hi)
    && (forall i, j :: 0 <= i < j < |forms| && forms[i].At? && forms[j].At? ==> Key(forms[i].l) < Key(forms[j].l))
  }

  ghost predicate Fine(forms: seq<Form>, lo: int, hi: int) {
    lo <= hi && Ascending(forms, lo, hi) && forall i :: 0 <= i < |forms| ==> WellFormed(forms[i])
  }

  lemma FineAppend(xs: seq<Form>, ys: seq<Form>, lo: int, mid: int, hi: int)
    requires Fine(xs, lo, mid) && Fine(ys, mid, hi)
    ensures Fine(xs + ys, lo, hi)
  {
    hide Key, WellFormed;
    var s := xs + ys;
    forall i, j | 0 <= i < j < |s| && s[i].At? && s[j].At?
      ensures Key(s[i].l) < Key(s[j].l)
    {
      if i < |xs| <= j {
        assert Key(xs[i].l) < mid <= Key(ys[j - |xs|].l);
      }
    }
  }

  lemma FirstFine(block: seq<Form>, key: int, ip: bool)
    requires FineBlock(block, key, ip)
    ensures Fine(block, key, key + 1)
  {
    hide Key, WellFormed, FormNeat;
    forall i | 0 <= i < |block|
      ensures WellFormed(block[i]) && (i > 0 ==> !block[i].At?)
    {
      assert LineShaped(block, i, ip);
    }
  }

  lemma {:induction false} JoinFine(blocks: seq<seq<Form>>, key: int, ip: bool)
    requires FineBlocks(blocks, key, ip)
    ensures Fine(Join(blocks), key, key + |blocks|)
  {
    hide Fine, FineBlock;
    if blocks == [] {
      NothingFine(Join(blocks), key);
    } else {
      assert FineBlock(blocks[0], key, ip);
      FirstFine(blocks[0], key, ip);
      assert forall k :: 0 <= k < |blocks[1..]| ==> blocks[1..][k] == blocks[k + 1];
      JoinFine(blocks[1..], key + 1, ip);
      FineAppend(blocks[0], Join(blocks[1..]), key, key + 1, key + |blocks|);
    }
  }

  lemma StartFine()
    ensures Fine(START_BLOCK, 0, 1)
  {
  }

  lemma NextFine()
    ensures Fine(NEXT_BLOCK, 1, 2)
  {
  }

  lemma EnterFine()
    ensures Fine(ENTER_BLOCK, 2, 20)
  {
  }

  lemma CoreFine()
    ensures Fine(Join(CORE), 0, 20)
  {
    StartFine();
    NextFine();
    EnterFine();
    CoreSplit();
    hide Fine, Join;
    FineAppend(NEXT_BLOCK, ENTER_BLOCK, 1, 2, 20);
    FineAppend(START_BLOCK, NEXT_BLOCK + ENTER_BLOCK, 0, 1, 20);
  }

  /** The words of a group follow one another, the first in place `first`. */
  ghost predicate Consecutive(prims: seq<Prim>, first: nat) {
    forall i :: 0 <= i < |prims| ==> Order(prims[i]) == first + i
  }

  lemma FirstGroupsInOrder()
    ensures Consecutive(CONTROL_WORDS, 0) && Consecutive(STACK_WORDS, 3) && Consecutive(ARITHMETIC_WORDS, 11)
  {
  }

  lemma CellGroupsInOrder()
    ensures Consecutive(MEMORY_WORDS, 18) && Consecutive(RETURN_WORDS, 22)
  {
  }

  lemma ComparisonsInOrder()
    ensures Consecutive(COMPARISON_WORDS, 25)
  {
  }

  lemma LogicInOrder()
    ensures Consecutive(LOGIC_WORDS, 31)
  {
  }

  lemma TextInOrder()
    ensures Consecutive(TEXT_WORDS, 34)
  {
  }

  lemma InOrder(k: nat)
    requires k < |PRIMITIVES|
    ensures Order(PRIMITIVES[k]) == k && |PRIMITIVES| == 39
  {
    hide Order;
    FirstGroupsInOrder();
    CellGroupsInOrder();
    ComparisonsInOrder();
    LogicInOrder();
    TextInOrder();
  }

  lemma FineWider(forms: seq<Form>, lo: int, mid: int, hi: int)
    requires Fine(forms, lo, mid) && mid <= hi
    ensures Fine(forms, lo, hi)
  {
  }

  /** A routine keeps to the twenty places that are its own. */
  lemma RoutineInOrder(p: Prim)
    ensures Fine(Join(Routine(p)), RoutineKey(p), RoutineKey(p) + 20)
  {
    hide Routine, Fine, Order, Join, FineBlocks;
    RoutineFine(p);
    RoutineShort(p);
    JoinFine(Routine(p), RoutineKey(p), MovesIp(p));
    FineWider(Join(Routine(p)), RoutineKey(p), RoutineKey(p) + |Routine(p)|, RoutineKey(p) + 20);
  }

  lemma {:induction false} RoutinesFine(k: nat)
    requires k <= |PRIMITIVES|
    ensures Fine(RoutinesOf(PRIMITIVES[k..]), 20 * (k + 1), 20 * (|PRIMITIVES| + 1))
    decreases |PRIMITIVES| - k
  {
    hide Routine, Fine, Order, Join;
    if k == |PRIMITIVES| {
      NothingFine(RoutinesOf(PRIMITIVES[k..]), 20 * (k + 1));
    } else {
      InOrder(k);
      var p := PRIMITIVES[k];
      RoutineInOrder(p);
      RoutinesFine(k + 1);
      assert PRIMITIVES[k..][1..] == PRIMITIVES[k + 1..];
      FineAppend(Join(Routine(p)), RoutinesOf(PRIMITIVES[k + 1..]), 20 * (k + 1), 20 * (k + 2), 20 * (|PRIMITIVES| + 1));
    }
  }

  lemma NothingFine(forms: seq<Form>, key: int)
    requires forms == []
    ensures Fine(forms, key, key)
  {
  }

  lemma KernelFine()
    ensures Fine(Join(CORE) + RoutinesOf(PRIMITIVES), 0, 20 * (|PRIMITIVES| + 1))
  {
    hide Fine, Join, RoutinesOf;
    CoreFine();
    RoutinesFine(0);
    assert PRIMITIVES[0..] == PRIMITIVES;
    FineAppend(Join(CORE), RoutinesOf(PRIMITIVES), 0, 20, 20 * (|PRIMITIVES| + 1));
  }

  // ---- labels of a run of forms ----

  lemma {:induction false} DefinedForms(forms: seq<Form>)
    ensures forall n :: n in Defined(Lines(forms)) <==> n.Lbl? && At(n.lbl) in forms
  {
    if forms != [] {
      assert Lines(forms)[1..] == Lines(forms[1..]);
      DefinedForms(forms[1..]);
    }
  }

  lemma {:induction false} AscendingDistinct(forms: seq<Form>, lo: int, hi: int)
    requires Ascending(forms, lo, hi)
    ensures Distinct(Defined(Lines(forms)))
  {
    hide Key, Distinct;
    if forms == [] {
      DistinctNil(Defined(Lines(forms)));
    } else {
      var first, rest := forms[0], forms[1..];
      AscendingDistinct(rest, lo, hi);
      DefinedForms(rest);
      if first.At? {
        forall i | 0 <= i < |rest|
          ensures rest[i] != first
        {
          assert rest[i] == forms[i + 1];
        }
      }
      OneLabel(Text(first).labels);
      DistinctAppend(Text(first).labels, Defined(Lines(rest)));
      assert Lines(forms)[1..] == Lines(rest);
    }
  }

  lemma OneLabel(names: seq<Name>)
    requires |names| <= 1
    ensures Distinct(names)
  {
  }

  // ---- every label is defined ----

  lemma {:induction false} JoinHas(blocks: seq<seq<Form>>, k: nat, form: Form)
    requires k < |blocks| && form in blocks[k]
    ensures form in Join(blocks)
  {
    if k > 0 {
      JoinHas(blocks[1..], k - 1, form);
    }
  }

  lemma {:induction false} RoutinesHave(prims: seq<Prim>, p: Prim, form: Form)
    requires p in prims && form in Join(Routine(p))
    ensures form in RoutinesOf(prims)
  {
    hide Routine, Join;
    if p != prims[0] {
      RoutinesHave(prims[1..], p, form);
    }
  }

  lemma OpensFindBlock(l: Label)
    requires PlaceOf(l).In? && PlaceOf(l).prim == FIND
    ensures PlaceOf(l).block < |Routine(FIND)| && At(l) in Routine(FIND)[PlaceOf(l).block]
  {
    assert Routine(FIND)[PlaceOf(l).block][0] == At(l);
  }

  lemma OpensNumberBlock(l: Label)
    requires PlaceOf(l).In? && PlaceOf(l).prim == NUMBER
    ensures PlaceOf(l).block < |Routine(NUMBER)| && At(l) in Routine(NUMBER)[PlaceOf(l).block]
  {
    assert Routine(NUMBER)[PlaceOf(l).block][0] == At(l);
  }

  lemma OpensPlainBlock(l: Label)
    requires PlaceOf(l).In? && PlaceOf(l).prim != NUMBER && PlaceOf(l).prim != FIND && !l.Entry?
    ensures var place := PlaceOf(l);
      place.block < |Routine(place.prim)| && At(l) in Routine(place.prim)[place.block]
  {
    assert Routine(PlaceOf(l).prim)[PlaceOf(l).block][0] == At(l);
  }

  lemma OpensItsBlock(l: Label)
    requires PlaceOf(l).In?
    ensures var place := PlaceOf(l);
      place.block < |Routine(place.prim)| && At(l) in Routine(place.prim)[place.block]
  {
    hide Routine;
    var p := PlaceOf(l).prim;
    if p == FIND {
      OpensFindBlock(l);
    } else if p == NUMBER {
      OpensNumberBlock(l);
    } else if l.Entry? {
      RoutineStarts(l.prim);
    } else {
      OpensPlainBlock(l);
    }
  }

  lemma EveryLabelDefined(l: Label)
    ensures At(l) in Join(CORE) + RoutinesOf(PRIMITIVES)
  {
    match PlaceOf(l)
    case InCore(k) =>
      assert CORE[k][0] == At(l);
      JoinHas(CORE, k, At(l));
    case In(p, k) =>
      OpensItsBlock(l);
      hide Routine, Join, RoutinesOf;
      JoinHas(Routine(p), k, At(l));
      EveryPrim(p);
      RoutinesHave(PRIMITIVES, p, At(l));
  }

  lemma WellFormedFits(form: Form, known: set<Name>)
    requires WellFormed(form) && forall l: Label :: Lbl(l) in known
    ensures LineFits(Text(form), known)
  {
  }

  /** The assembler accepts the kernel, so an assembled kernel exists. */
  lemma KernelAssembled()
    ensures Assemble(KERNEL_SOURCE).Ok?
    ensures KernelLoaded(Assemble(KERNEL_SOURCE).value)
  {
    hide Assemble, LineFits, WellFormed, Join, RoutinesOf, Ascending, Defined, Distinct;
    var forms := Join(CORE) + RoutinesOf(PRIMITIVES);
    KernelFine();
    AscendingDistinct(forms, 0, 20 * (|PRIMITIVES| + 1));
    DefinedForms(forms);
    var known := set n | n in Defined(Lines(forms));
    forall l: Label
      ensures Lbl(l) in known
    {
      EveryLabelDefined(l);
    }
    forall i | 0 <= i < |forms|
      ensures LineFits(Lines(forms)[i], known)
    {
      WellFormedFits(forms[i], known);
    }
    AssembleAccepts(KERNEL_SOURCE);
  }
}
