/** Where the routines of the assembled kernel sit. */
module KernelLayout {
  import opened Wrappers
  import opened Isa
  import opened Cpu
  import opened Layout
  import opened Stacks
  import opened Assembler
  import opened AbstractMachine
  import opened SourceMachine
  import opened Blocks
  import opened Forms
  import opened KernelSource
  import opened Symbolic
  import opened Control
  import opened KernelShape

  ghost predicate BlocksAt(asm: Assembly, blocks: seq<seq<Form>>, address: int) {
    blocks == []
    || (BlockSits(asm, blocks[0], address) && BlocksAt(asm, blocks[1..], address + TotalSize(Lines(blocks[0]))))
  }

  /** Blocks that keep control in order, one after the other past `NEXT`. */
  lemma {:induction false} JoinAt(asm: Assembly, blocks: seq<seq<Form>>, address: int)
    requires FormsAt(asm, Join(blocks), address)
    requires Lbl(NEXT) in asm.labels && Address(asm, NEXT) < address
    requires forall k :: 0 <= k < |blocks| ==> Neat(blocks[k])
    ensures BlocksAt(asm, blocks, address)
  {
    hide FormsAt, Neat;
    if blocks != [] {
      FormsSplit(asm, blocks[0], Join(blocks[1..]), address);
      JoinAt(asm, blocks[1..], address + TotalSize(Lines(blocks[0])));
    }
  }

  lemma RoutineNeat(p: Prim)
    ensures forall k :: 0 <= k < |Routine(p)| ==> Neat(Routine(p)[k])
  {
    hide Routine, FormNeat, WellFormed, RoutineKey, Key;
    RoutineFine(p);
    forall k | 0 <= k < |Routine(p)|
      ensures Neat(Routine(p)[k])
    {
      assert FineBlock(Routine(p)[k], RoutineKey(p) + k, MovesIp(p));
      ShapedNeat(Routine(p)[k], MovesIp(p));
    }
  }

  lemma ShapedNeat(block: seq<Form>, ip: bool)
    requires Shaped(block, ip)
    ensures Neat(block)
  {
    hide FormNeat, WellFormed;
    forall i | 0 <= i < |block|
      ensures FormNeat(block[i], SettledBefore(block, i))
    {
      assert LineShaped(block, i, ip);
    }
  }

  lemma {:induction false} RoutinesAt(asm: Assembly, prims: seq<Prim>, address: int, p: Prim)
    requires FormsAt(asm, RoutinesOf(prims), address) && p in prims
    requires Lbl(NEXT) in asm.labels && Address(asm, NEXT) < address
    ensures exists a :: BlocksAt(asm, Routine(p), a)
  {
    hide FormsAt, BlocksAt, Routine, Neat;
    FormsSplit(asm, Join(Routine(prims[0])), RoutinesOf(prims[1..]), address);
    if p == prims[0] {
      RoutineNeat(p);
      JoinAt(asm, Routine(p), address);
    } else {
      assert p in prims[1..];
      RoutinesAt(asm, prims[1..], address + TotalSize(Lines(Join(Routine(prims[0])))), p);
    }
  }

  ghost predicate KernelLoaded(asm: Assembly) { Assemble(KERNEL_SOURCE) == Ok(asm) }

  lemma FormsDefineLabels(forms: seq<Form>)
    requires Assemble(Lines(forms)).Ok?
    ensures forall n :: n in Assemble(Lines(forms)).value.labels ==> n.Lbl?
  {
    hide Assemble;
    AssemblePlaces(Lines(forms));
    assert forall i :: 0 <= i < |forms| ==> Lines(forms)[i] == Text(forms[i]);
  }

  /** No register of the kernel is also a label, so a register operand is never an immediate. */
  lemma RegistersAreNotLabels(asm: Assembly)
    requires KernelLoaded(asm)
    ensures RegistersApart(asm)
  {
    hide Assemble;
    FormsDefineLabels(Join(CORE) + RoutinesOf(PRIMITIVES));
  }

  lemma EveryPrim(p: Prim)
    ensures p in PRIMITIVES
  {
    assert PRIMITIVES[0] == LIT && PRIMITIVES[1] == EXIT;
  }

  lemma RoutineStarts(p: Prim)
    ensures Routine(p) != [] && Routine(p)[0] != [] && Routine(p)[0][0] == At(Entry(p))
  {
  }

  /** A block that opens with a label sits where its label says. */
  lemma LabelAt(asm: Assembly, forms: seq<Form>, address: int)
    requires FormsAt(asm, forms, address) && forms != [] && forms[0].At?
    ensures Lbl(forms[0].l) in asm.labels && asm.labels[Lbl(forms[0].l)] == address
  {
    hide EmitLine;
    PlacedCons(asm, Lines(forms), address);
    assert Lines(forms)[0] == Text(forms[0]);
    assert Lbl(forms[0].l) in Lines(forms)[0].labels;
  }

  /** How far block `i` is from the first. */
  function Offset(blocks: seq<seq<Form>>, i: nat): nat
    requires i <= |blocks|
    decreases |blocks|
  {
    if i == 0 then 0 else TotalSize(Lines(blocks[0])) + Offset(blocks[1..], i - 1)
  }

  lemma {:induction false} BlocksAtIndex(asm: Assembly, blocks: seq<seq<Form>>, address: int, i: nat)
    requires BlocksAt(asm, blocks, address) && i < |blocks|
    ensures BlockSits(asm, blocks[i], address + Offset(blocks, i))
    ensures Offset(blocks, i + 1) == Offset(blocks, i) + TotalSize(Lines(blocks[i]))
  {
    hide BlockSits;
    if i > 0 {
      BlocksAtIndex(asm, blocks[1..], address + TotalSize(Lines(blocks[0])), i - 1);
    }
  }

  /** Where block `i` of a primitive's routine sits. */
  function BlockAddress(asm: Assembly, p: Prim, i: nat): int
    requires i <= |Routine(p)|
  {
    Address(asm, Entry(p)) + Offset(Routine(p), i)
  }

  lemma KernelSits(asm: Assembly)
    requires KernelLoaded(asm)
    ensures FormsAt(asm, Join(CORE) + RoutinesOf(PRIMITIVES), 0)
  {
    hide Assemble;
    AssemblePlaces(KERNEL_SOURCE);
  }

  ghost predicate RoutineSits(asm: Assembly, p: Prim) {
    Lbl(Entry(p)) in asm.labels && BlocksAt(asm, Routine(p), Address(asm, Entry(p)))
  }

  /** `START` is the first instruction, as the emulator needs; `NEXT` and `ENTER` follow it. */
  ghost predicate CoreSits(asm: Assembly) {
    && Lbl(START) in asm.labels && Address(asm, START) == 0 && FormsAt(asm, START_BLOCK, 0)
    && Lbl(NEXT) in asm.labels && FormsAt(asm, NEXT_BLOCK, Address(asm, NEXT))
    && Lbl(ENTER) in asm.labels && BlockSits(asm, ENTER_BLOCK, Address(asm, ENTER))
  }

  /** Everything the routines' proofs need to know about where they are. */
  ghost predicate Sited(asm: Assembly) {
    && RegistersApart(asm)
    && CoreSits(asm)
    && forall p: Prim {:trigger RoutineSits(asm, p)} :: RoutineSits(asm, p)
  }

  lemma {:induction false} TotalSizeAtLeast(lines: seq<Line>, i: nat)
    requires i < |lines|
    ensures Size(lines[i]) <= TotalSize(lines)
  {
    if i > 0 {
      TotalSizeAtLeast(lines[1..], i - 1);
    }
  }

  lemma NextNotEmpty()
    ensures TotalSize(Lines(NEXT_BLOCK)) >= 1
  {
    TotalSizeAtLeast(Lines(NEXT_BLOCK), 1);
  }

  lemma EnterNeat()
    ensures Neat(ENTER_BLOCK)
  {
  }

  /** The core's three blocks in order. */
  lemma CoreSplit()
    ensures Join(CORE) == START_BLOCK + (NEXT_BLOCK + ENTER_BLOCK)
  {
    assert CORE[1..] == [NEXT_BLOCK] + [ENTER_BLOCK];
    assert CORE[1..][1..] == [ENTER_BLOCK];
    assert CORE[1..][1..][1..] == [];
    assert Join(CORE[1..][1..]) == ENTER_BLOCK;
  }

  /** The core's blocks, each right after the one before it. */
  lemma CoreBlocks(asm: Assembly)
    requires KernelLoaded(asm)
    ensures var next := TotalSize(Lines(START_BLOCK));
      && FormsAt(asm, START_BLOCK, 0) && FormsAt(asm, NEXT_BLOCK, next)
      && FormsAt(asm, ENTER_BLOCK, next + TotalSize(Lines(NEXT_BLOCK)))
  {
    KernelSits(asm);
    CoreSplit();
    hide KernelLoaded, FormsAt, Lines, TotalSize, Join, RoutinesOf;
    FormsSplit(asm, Join(CORE), RoutinesOf(PRIMITIVES), 0);
    FormsSplit(asm, START_BLOCK, NEXT_BLOCK + ENTER_BLOCK, 0);
    FormsSplit(asm, NEXT_BLOCK, ENTER_BLOCK, TotalSize(Lines(START_BLOCK)));
  }

  lemma Sits(asm: Assembly, forms: seq<Form>, address: int)
    requires FormsAt(asm, forms, address) && Neat(forms)
    requires Lbl(NEXT) in asm.labels && Address(asm, NEXT) < address
    ensures BlockSits(asm, forms, address)
  {
  }

  lemma CoreAt(asm: Assembly)
    requires KernelLoaded(asm)
    ensures CoreSits(asm)
  {
    hide KernelLoaded, FormsAt, BlockSits, Lines, Neat, TotalSize;
    CoreBlocks(asm);
    NextNotEmpty();
    EnterNeat();
    var next := TotalSize(Lines(START_BLOCK));
    LabelAt(asm, START_BLOCK, 0);
    LabelAt(asm, NEXT_BLOCK, next);
    LabelAt(asm, ENTER_BLOCK, next + TotalSize(Lines(NEXT_BLOCK)));
    Sits(asm, ENTER_BLOCK, next + TotalSize(Lines(NEXT_BLOCK)));
  }

  lemma CoreEndsPastNext(asm: Assembly)
    requires KernelLoaded(asm)
    ensures Address(asm, NEXT) < TotalSize(Lines(Join(CORE)))
  {
    CoreBlocks(asm);
    NextNotEmpty();
    CoreSize();
    hide KernelLoaded, FormsAt, Lines, TotalSize, Join;
    LabelAt(asm, NEXT_BLOCK, TotalSize(Lines(START_BLOCK)));
  }

  lemma CoreSize()
    ensures TotalSize(Lines(Join(CORE)))
         == TotalSize(Lines(START_BLOCK)) + TotalSize(Lines(NEXT_BLOCK)) + TotalSize(Lines(ENTER_BLOCK))
  {
    CoreSplit();
    hide TotalSize, Join;
    assert Lines(Join(CORE)) == Lines(START_BLOCK) + (Lines(NEXT_BLOCK) + Lines(ENTER_BLOCK));
    TotalSizeAppend(Lines(START_BLOCK), Lines(NEXT_BLOCK) + Lines(ENTER_BLOCK));
    TotalSizeAppend(Lines(NEXT_BLOCK), Lines(ENTER_BLOCK));
  }

  lemma RoutineAt(asm: Assembly, p: Prim)
    requires KernelLoaded(asm)
    ensures Lbl(Entry(p)) in asm.labels
    ensures BlocksAt(asm, Routine(p), Address(asm, Entry(p)))
  {
    CoreAt(asm);
    KernelSits(asm);
    CoreEndsPastNext(asm);
    hide KernelLoaded, Routine, FormsAt, Lines, TotalSize, Join, RoutinesOf, CoreSits, BlockSits;
    FormsSplit(asm, Join(CORE), RoutinesOf(PRIMITIVES), 0);
    EveryPrim(p);
    RoutinesAt(asm, PRIMITIVES, TotalSize(Lines(Join(CORE))), p);
    var a :| BlocksAt(asm, Routine(p), a);
    RoutineStarts(p);
    FirstSits(asm, Routine(p), a);
    LabelAt(asm, Routine(p)[0], a);
  }

  lemma FirstSits(asm: Assembly, blocks: seq<seq<Form>>, address: int)
    requires BlocksAt(asm, blocks, address) && blocks != []
    ensures FormsAt(asm, blocks[0], address)
  {
  }

  /** However the kernel assembles, its routines sit where they should. */
  lemma KernelSited(asm: Assembly)
    requires KernelLoaded(asm)
    ensures Sited(asm)
  {
    RegistersAreNotLabels(asm);
    CoreAt(asm);
    hide KernelLoaded, CoreSits, BlocksAt, Routine;
    forall p: Prim
      ensures RoutineSits(asm, p)
    {
      RoutineAt(asm, p);
    }
  }

  lemma RoutineSited(asm: Assembly, p: Prim)
    requires Sited(asm)
    ensures Lbl(Entry(p)) in asm.labels && BlocksAt(asm, Routine(p), Address(asm, Entry(p)))
  {
    hide Routine, BlocksAt, CoreSits;
    assert RoutineSits(asm, p);
  }

  /** Each block of a routine sits right after the one before it, and where its label says. */
  lemma BlockAt(asm: Assembly, p: Prim, i: nat)
    requires Sited(asm) && i < |Routine(p)|
    ensures BlockSits(asm, Routine(p)[i], BlockAddress(asm, p, i))
    ensures BlockAddress(asm, p, i + 1) == BlockAddress(asm, p, i) + TotalSize(Lines(Routine(p)[i]))
    ensures BlockAddress(asm, p, 0) == Address(asm, Entry(p))
    ensures Routine(p)[i] != [] && Routine(p)[i][0].At? ==>
      Lbl(Routine(p)[i][0].l) in asm.labels && Address(asm, Routine(p)[i][0].l) == BlockAddress(asm, p, i)
  {
    hide Routine, FormsAt, BlockSits, BlocksAt, Lines, Sited;
    RoutineSited(asm, p);
    BlocksAtIndex(asm, Routine(p), Address(asm, Entry(p)), i);
    SitsThere(asm, Routine(p)[i], BlockAddress(asm, p, i));
    if Routine(p)[i] != [] && Routine(p)[i][0].At? {
      LabelAt(asm, Routine(p)[i], BlockAddress(asm, p, i));
    }
  }
}
