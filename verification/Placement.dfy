/** Each routine of the assembled kernel sits as its own proof asks. */
module Placement {
  import opened Wrappers
  import opened Isa
  import opened Assembler
  import opened Forms
  import opened KernelSource
  import opened Symbolic
  import opened Control
  import opened KernelLayout
  import Words
  import S = SimpleRoutines
  import M = MulRoutine
  import N = NumberRoutine
  import W = WordRoutine
  import F = FindRoutine

  /** A routine of one block. */
  lemma SingleAt(asm: Assembly, p: Prim, forms: seq<Form>)
    requires Sited(asm) && Routine(p) == [forms]
    ensures RegistersApart(asm) && BlockSits(asm, forms, Address(asm, Entry(p)))
  {
    hide CoreSits, BlockSits, TotalSize, Lines, BlockAddress, Offset, BlocksAt;
    BlockAt(asm, p, 0);
  }

  lemma ShuffleAt(asm: Assembly, p: Prim)
    requires Sited(asm) && Words.IsShuffle(p)
    ensures RegistersApart(asm) && BlockSits(asm, S.ShuffleBlock(p), Address(asm, Entry(p)))
  {
    hide Sited, BlockSits, RegistersApart;
    SingleAt(asm, p, S.ShuffleBlock(p));
  }

  lemma UnaryAt(asm: Assembly, p: Prim)
    requires Sited(asm) && (p == NEGATE || p == ONEPLUS || p == ONEMINUS || p == BITINVERT)
    ensures RegistersApart(asm) && BlockSits(asm, S.UnaryBlock(p), Address(asm, Entry(p)))
  {
    hide Sited, BlockSits, RegistersApart;
    SingleAt(asm, p, S.UnaryBlock(p));
  }

  lemma BinaryAt(asm: Assembly, p: Prim)
    requires Sited(asm) && (p == PLUS || p == MINUS || p == BITAND || p == BITOR)
    ensures RegistersApart(asm) && BlockSits(asm, S.BinaryBlock(p), Address(asm, Entry(p)))
  {
    hide Sited, BlockSits, RegistersApart;
    SingleAt(asm, p, S.BinaryBlock(p));
  }

  lemma MemoryAt(asm: Assembly, p: Prim)
    requires Sited(asm) && (p == FETCH || p == CFETCH || p == STOREW || p == CSTOREW)
    ensures RegistersApart(asm)
    ensures BlockSits(asm, if p == FETCH || p == CFETCH then FetchBlock(p) else StoreBlock(p), Address(asm, Entry(p)))
  {
    hide Sited, BlockSits, RegistersApart;
    SingleAt(asm, p, if p == FETCH || p == CFETCH then FetchBlock(p) else StoreBlock(p));
  }

  /** The routines that move one cell between a stack and something else, or move control. */
  function TransferBlock(p: Prim): seq<Form> {
    match p
    case TOR => TO_R_BLOCK
    case FROMR => FROM_R_BLOCK
    case RFETCH => RFetchBlock
    case KEY => KEY_BLOCK
    case EMIT => EMIT_BLOCK
    case LIT => LIT_BLOCK
    case EXIT => EXIT_BLOCK
    case _ => BYE_BLOCK
  }

  lemma TransferAt(asm: Assembly, p: Prim)
    requires Sited(asm)
    requires p.TOR? || p.FROMR? || p.RFETCH? || p.KEY? || p.EMIT? || p.LIT? || p.EXIT? || p.BYE?
    ensures RegistersApart(asm) && BlockSits(asm, TransferBlock(p), Address(asm, Entry(p)))
  {
    hide Sited, BlockSits, RegistersApart;
    SingleAt(asm, p, TransferBlock(p));
  }

  lemma AbsAt(asm: Assembly)
    requires Sited(asm)
    ensures RegistersApart(asm) && BlockSits(asm, ABS_BLOCK, Address(asm, Entry(ABS)))
    ensures Lbl(ABS_NEG) in asm.labels && BlockSits(asm, ABS_NEG_BLOCK, Address(asm, ABS_NEG))
  {
    hide CoreSits, BlockSits, TotalSize, Lines, BlockAddress, Offset, BlocksAt;
    BlockAt(asm, ABS, 0);
    BlockAt(asm, ABS, 1);
  }

  /** A routine of three blocks, the last of them labelled. */
  lemma TripleAt(asm: Assembly, p: Prim, x: seq<Form>, y: seq<Form>, z: seq<Form>)
    requires Sited(asm) && Routine(p) == [x, y, z] && z != [] && z[0].At?
    ensures var a := Address(asm, Entry(p));
      && BlockSits(asm, x, a)
      && BlockSits(asm, y, a + TotalSize(Lines(x)))
      && Lbl(z[0].l) in asm.labels && BlockSits(asm, z, Address(asm, z[0].l))
  {
    hide CoreSits, Routine, BlockSits, TotalSize, Lines, BlockAddress, Offset, BlocksAt;
    BlockAt(asm, p, 0);
    BlockAt(asm, p, 1);
    BlockAt(asm, p, 2);
  }

  lemma ComparisonAt(asm: Assembly, p: Prim)
    requires Sited(asm)
    requires p.EQUALS? || p.NOTEQUALS? || p.LESSTHAN? || p.GREATERTHAN? || p.ZEROEQ? || p.ZEROLT?
    ensures RegistersApart(asm) && S.ComparisonSits(asm, S.ComparisonOf(p), Address(asm, Entry(p)))
  {
    hide CoreSits, BlockSits, TotalSize, Lines, BlockAddress, Offset, BlocksAt;
    var c := S.ComparisonOf(p);
    TripleAt(asm, p, c.test, FlagLines(c.fall), LabelledFlag(c.goal, c.taken));
  }

  lemma MulAt(asm: Assembly)
    requires Sited(asm)
    ensures M.MulSits(asm, Address(asm, Entry(MUL)))
  {
    hide CoreSits, BlockSits, TotalSize, Lines, BlockAddress, Offset, BlocksAt;
    BlockAt(asm, MUL, 0);
    BlockAt(asm, MUL, 1);
    BlockAt(asm, MUL, 2);
  }

  lemma NumberAt(asm: Assembly)
    requires Sited(asm)
    ensures N.NumberSits(asm, Address(asm, Entry(NUMBER)))
  {
    hide CoreSits, BlockSits, TotalSize, Lines, BlockAddress, Offset, BlocksAt;
    BlockAt(asm, NUMBER, 0);
    BlockAt(asm, NUMBER, 1);
    BlockAt(asm, NUMBER, 2);
    BlockAt(asm, NUMBER, 3);
    BlockAt(asm, NUMBER, 4);
    BlockAt(asm, NUMBER, 5);
    BlockAt(asm, NUMBER, 6);
    BlockAt(asm, NUMBER, 7);
    BlockAt(asm, NUMBER, 8);
    BlockAt(asm, NUMBER, 9);
  }

  lemma WordAt(asm: Assembly)
    requires Sited(asm)
    ensures W.WordSits(asm, Address(asm, Entry(WORD)))
  {
    hide CoreSits, BlockSits, TotalSize, Lines, BlockAddress, Offset, BlocksAt;
    BlockAt(asm, WORD, 0);
    BlockAt(asm, WORD, 1);
    BlockAt(asm, WORD, 2);
    BlockAt(asm, WORD, 3);
    BlockAt(asm, WORD, 4);
  }

  lemma FindAt(asm: Assembly)
    requires Sited(asm)
    ensures F.FindSits(asm, Address(asm, Entry(FIND)))
  {
    hide CoreSits, BlockSits, TotalSize, Lines, BlockAddress, Offset, BlocksAt;
    BlockAt(asm, FIND, 0);
    BlockAt(asm, FIND, 1);
    BlockAt(asm, FIND, 2);
    BlockAt(asm, FIND, 3);
    BlockAt(asm, FIND, 4);
    BlockAt(asm, FIND, 5);
    BlockAt(asm, FIND, 6);
    BlockAt(asm, FIND, 7);
    BlockAt(asm, FIND, 8);
    BlockAt(asm, FIND, 9);
    BlockAt(asm, FIND, 10);
    BlockAt(asm, FIND, 11);
    BlockAt(asm, FIND, 12);
  }
}
