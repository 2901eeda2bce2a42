/** The kernel's routines block by block: lines the assembler takes, a label only in front, control
    kept in order, and no reserved register written but `IP`, by `LIT` and `EXIT`. */
module KernelShape {
  import opened Wrappers
  import opened Isa
  import opened Assembler
  import opened Forms
  import opened KernelSource
  import opened Control
  import opened Cpu
  import opened AbstractMachine
  import opened SourceMachine

  // ---- labels in order ----

  /** The place of a CODE word in `PRIMITIVES`. */
  function Order(p: Prim): nat {
    match p
    case LIT => 0 case EXIT => 1 case BYE => 2
    case DUP => 3 case DROP => 4 case SWAP => 5 case OVER => 6
    case ROT => 7 case NROT => 8 case NIP => 9 case TUCK => 10
    case PLUS => 11 case MINUS => 12 case MUL => 13 case NEGATE => 14
    case ABS => 15 case ONEPLUS => 16 case ONEMINUS => 17
    case FETCH => 18 case STOREW => 19 case CFETCH => 20 case CSTOREW => 21
    case TOR => 22 case FROMR => 23 case RFETCH => 24
    case EQUALS => 25 case NOTEQUALS => 26 case LESSTHAN => 27 case GREATERTHAN => 28
    case ZEROEQ => 29 case ZEROLT => 30
    case BITAND => 31 case BITOR => 32 case BITINVERT => 33
    case KEY => 34 case EMIT => 35 case NUMBER => 36 case WORD => 37 case FIND => 38
  }

  /** The block a label opens: one of the core, or one of a routine. */
  datatype Place = InCore(block: nat) | In(prim: Prim, block: nat)

  function PlaceOf(l: Label): Place {
    match l
    case START => InCore(0) case NEXT => InCore(1) case ENTER => InCore(2)
    case Entry(p) => In(p, 0)
    case MUL_LOOP => In(MUL, 1) case MUL_DONE => In(MUL, 2)
    case ABS_NEG => In(ABS, 1)
    case EQ_TRUE => In(EQUALS, 2) case NE_FALSE => In(NOTEQUALS, 2)
    case LT_TRUE => In(LESSTHAN, 2) case GT_TRUE => In(GREATERTHAN, 2)
    case ZE_TRUE => In(ZEROEQ, 2) case ZL_TRUE => In(ZEROLT, 2)
    case NUM_NEG => In(NUMBER, 2) case NUM_LOOP => In(NUMBER, 3) case NUM_DIGIT_OK => In(NUMBER, 4)
    case NUM_DONE => In(NUMBER, 7) case NUM_PUSH => In(NUMBER, 8) case NUM_FAIL => In(NUMBER, 9)
    case WORD_SKIP => In(WORD, 1) case WORD_COLLECT => In(WORD, 3) case WORD_END => In(WORD, 4)
    case FIND_LOOP => In(FIND, 1) case FIND_VISIBLE => In(FIND, 2) case FIND_CMP => In(FIND, 3)
    case FIND_CHARS => In(FIND, 5) case FIND_CHAR_OK => In(FIND, 6) case FIND_MATCH => In(FIND, 7)
    case FIND_NORMAL => In(FIND, 10) case FIND_NEXT => In(FIND, 11) case FIND_NOTFOUND => In(FIND, 12)
  }

  function RoutineKey(p: Prim): nat { 20 * (Order(p) + 1) }

  /** Where a label comes in the source: twenty places for the core and for each routine, one for
      each block. */
  function Key(l: Label): nat {
    match PlaceOf(l)
    case InCore(k) => k
    case In(p, k) => RoutineKey(p) + k
  }

  /** A line the assembler takes. */
  predicate WellFormed(form: Form) {
    match form
    case At(_) => true
    case One(opcode, _) => |OperandSpecs(opcode)| == 1
    case Two(opcode, _, _) =>
      |OperandSpecs(opcode)| == 2 && OperandSpecs(opcode)[1].kind != KindOffset
    case WithInt(opcode, _, _) =>
      |OperandSpecs(opcode)| == 2 && OperandSpecs(opcode)[1].kind == KindRegisterOrImmediate
    case To(opcode, _, _) =>
      |OperandSpecs(opcode)| == 2 && OperandSpecs(opcode)[1].kind == KindOffset
    case _ => true
  }

  /** The registers of the inner interpreter. */
  predicate Reserved(r: Register) { r == IP || r == W || r == XT || r == NEXTREG }

  /** The CODE words that move the thread pointer themselves. */
  predicate MovesIp(p: Prim) { p == LIT || p == EXIT }

  /** A line writes no reserved register, unless `ip` lets it write `IP`. */
  predicate Modest(form: Form, ip: bool) {
    Writes(form).Some? && Reserved(Writes(form).value) ==> ip && Writes(form).value == IP
  }

  /** A line that is well formed, orderly and modest. */
  ghost predicate Sound(form: Form, settled: Option<Register>, ip: bool) {
    WellFormed(form) && FormNeat(form, settled) && Modest(form, ip)
  }

  /** Line `i` of a block: sound, and no label unless it is the first. */
  ghost predicate LineShaped(block: seq<Form>, i: nat, ip: bool)
    requires i < |block|
  {
    Sound(block[i], SettledBefore(block, i), ip) && (i > 0 ==> !block[i].At?)
  }

  ghost predicate Shaped(block: seq<Form>, ip: bool) { forall i :: 0 <= i < |block| ==> LineShaped(block, i, ip) }

  /** A shaped block whose label, if any, comes at `key`. */
  ghost predicate FineBlock(block: seq<Form>, key: int, ip: bool) {
    Shaped(block, ip) && (block != [] && block[0].At? ==> Key(block[0].l) == key)
  }

  ghost predicate FineBlocks(blocks: seq<seq<Form>>, key: int, ip: bool) {
    forall k :: 0 <= k < |blocks| ==> FineBlock(blocks[k], key + k, ip)
  }

  predicate OneOperand(opcode: Opcode) {
    opcode in {INVERT, JMP, PUSH_D, POP_D, PUSH_R, POP_R, IN, OUT}
  }

  /** The shapes that are, one rule for each way of writing a line. */
  lemma Shapes()
    ensures forall op: Opcode, r: Register, t: Option<Register>, ip: bool {:trigger Sound(One(op, r), t, ip)} ::
      OneOperand(op) && (if op == JMP then r == NEXTREG || t == Some(r) else !Reserved(r) || (ip && r == IP)) ==>
      Sound(One(op, r), t, ip)
    ensures forall op: Opcode, r: Register, s: Register, t: Option<Register>, ip: bool
      {:trigger Sound(Two(op, r, s), t, ip)} ::
      op in {LOAD, STORE, ADD, SUB, AND, OR} && !Reserved(r) ==> Sound(Two(op, r, s), t, ip)
    ensures forall op: Opcode, r: Register, k: int, t: Option<Register>, ip: bool
      {:trigger Sound(WithInt(op, r, k), t, ip)} ::
      op in {ADD, SUB, AND, OR} && (!Reserved(r) || (ip && r == IP)) ==> Sound(WithInt(op, r, k), t, ip)
    ensures forall op: Opcode, r: Register, l: Label, t: Option<Register>, ip: bool
      {:trigger Sound(To(op, r, l), t, ip)} ::
      op in {JZ, JS} && !Reserved(r) ==> Sound(To(op, r, l), t, ip)
    ensures forall r: Register, l: Label, t: Option<Register>, ip: bool {:trigger Sound(SetLabel(r, l), t, ip)} ::
      !Reserved(r) ==> Sound(SetLabel(r, l), t, ip)
    ensures forall r: Register, k: int, t: Option<Register>, ip: bool {:trigger Sound(SetInt(r, k), t, ip)} ::
      !Reserved(r) ==> Sound(SetInt(r, k), t, ip)
    ensures forall r: Register, s: Register, t: Option<Register>, ip: bool {:trigger Sound(Copy(r, s), t, ip)} ::
      !Reserved(r) ==> Sound(Copy(r, s), t, ip)
    ensures forall l: Label, t: Option<Register>, ip: bool {:trigger Sound(At(l), t, ip)} :: Sound(At(l), t, ip)
    ensures forall t: Option<Register>, ip: bool {:trigger Sound(Halts, t, ip)} :: Sound(Halts, t, ip)
  {
  }

  lemma LoopBlocksFine()
    ensures FineBlocks(Routine(MUL), RoutineKey(MUL), false) && FineBlocks(Routine(ABS), RoutineKey(ABS), false)
  {
    hide Sound, Order;
    Shapes();
  }

  lemma ControlFine(p: Prim)
    requires p in {LIT, EXIT, BYE, DUP, DROP, SWAP}
    ensures FineBlocks(Routine(p), RoutineKey(p), MovesIp(p))
  {
    hide Sound, RoutineKey;
    Shapes();
  }

  lemma StackFine(p: Prim)
    requires p in {OVER, ROT, NROT, NIP, TUCK}
    ensures FineBlocks(Routine(p), RoutineKey(p), MovesIp(p))
  {
    hide Sound, RoutineKey;
    Shapes();
  }

  lemma ArithmeticFine(p: Prim)
    requires p in {PLUS, MINUS, NEGATE, ONEPLUS, ONEMINUS}
    ensures FineBlocks(Routine(p), RoutineKey(p), MovesIp(p))
  {
    hide Sound, RoutineKey;
    Shapes();
  }

  lemma CellFine(p: Prim)
    requires p in {FETCH, STOREW, CFETCH, CSTOREW, TOR, FROMR, RFETCH}
    ensures FineBlocks(Routine(p), RoutineKey(p), MovesIp(p))
  {
    hide Sound, RoutineKey;
    Shapes();
  }

  lemma LogicFine(p: Prim)
    requires p in {BITAND, BITOR, BITINVERT, KEY, EMIT}
    ensures FineBlocks(Routine(p), RoutineKey(p), MovesIp(p))
  {
    hide Sound, RoutineKey;
    Shapes();
  }

  lemma EqualityFine(p: Prim)
    requires p in {EQUALS, NOTEQUALS, ZEROEQ}
    ensures FineBlocks(Routine(p), RoutineKey(p), MovesIp(p))
  {
    hide Sound, RoutineKey;
    Shapes();
  }

  lemma OrderFine(p: Prim)
    requires p in {LESSTHAN, GREATERTHAN, ZEROLT}
    ensures FineBlocks(Routine(p), RoutineKey(p), MovesIp(p))
  {
    hide Sound, RoutineKey;
    Shapes();
  }

  lemma NumberHeadFine()
    ensures FineBlock(NUMBER_BLOCK, RoutineKey(NUMBER) + 0, false)
    ensures FineBlock(NUMBER_SIGN_BLOCK, RoutineKey(NUMBER) + 1, false)
    ensures FineBlock(NUM_NEG_BLOCK, RoutineKey(NUMBER) + 2, false)
    ensures FineBlock(NUM_LOOP_BLOCK, RoutineKey(NUMBER) + 3, false)
    ensures FineBlock(NUM_DIGIT_OK_BLOCK, RoutineKey(NUMBER) + 4, false)
  {
    hide Sound, RoutineKey;
    Shapes();
  }

  lemma NumberTailFine()
    ensures FineBlock(NUM_DIGIT_ADD_BLOCK, RoutineKey(NUMBER) + 5, false)
    ensures FineBlock(NUM_ADVANCE_BLOCK, RoutineKey(NUMBER) + 6, false)
    ensures FineBlock(NUM_DONE_BLOCK, RoutineKey(NUMBER) + 7, false)
    ensures FineBlock(NUM_PUSH_BLOCK, RoutineKey(NUMBER) + 8, false)
    ensures FineBlock(NUM_FAIL_BLOCK, RoutineKey(NUMBER) + 9, false)
  {
    hide Sound, RoutineKey;
    Shapes();
  }

  lemma WordBlocksFine()
    ensures FineBlock(WORD_BLOCK, RoutineKey(WORD) + 0, false)
    ensures FineBlock(WORD_SKIP_BLOCK, RoutineKey(WORD) + 1, false)
    ensures FineBlock(WORD_OPEN_BLOCK, RoutineKey(WORD) + 2, false)
    ensures FineBlock(WORD_COLLECT_BLOCK, RoutineKey(WORD) + 3, false)
    ensures FineBlock(WORD_END_BLOCK, RoutineKey(WORD) + 4, false)
  {
    hide Sound, RoutineKey;
    Shapes();
  }

  lemma FindHeadFine()
    ensures FineBlock(FIND_BLOCK, RoutineKey(FIND) + 0, false)
    ensures FineBlock(FIND_LOOP_BLOCK, RoutineKey(FIND) + 1, false)
    ensures FineBlock(FIND_VISIBLE_BLOCK, RoutineKey(FIND) + 2, false)
    ensures FineBlock(FIND_CMP_BLOCK, RoutineKey(FIND) + 3, false)
    ensures FineBlock(FIND_CMP_REST_BLOCK, RoutineKey(FIND) + 4, false)
  {
    hide Sound, RoutineKey;
    Shapes();
  }

  lemma FindMiddleFine()
    ensures FineBlock(FIND_CHARS_BLOCK, RoutineKey(FIND) + 5, false)
    ensures FineBlock(FIND_CHAR_OK_BLOCK, RoutineKey(FIND) + 6, false)
    ensures FineBlock(FIND_MATCH_BLOCK, RoutineKey(FIND) + 7, false)
    ensures FineBlock(FIND_FLAG_BLOCK, RoutineKey(FIND) + 8, false)
  {
    hide Sound, RoutineKey;
    Shapes();
  }

  lemma FindTailFine()
    ensures FineBlock(FIND_IMMEDIATE_BLOCK, RoutineKey(FIND) + 9, false)
    ensures FineBlock(FIND_NORMAL_BLOCK, RoutineKey(FIND) + 10, false)
    ensures FineBlock(FIND_NEXT_BLOCK, RoutineKey(FIND) + 11, false)
    ensures FineBlock(FIND_NOT_FOUND_BLOCK, RoutineKey(FIND) + 12, false)
  {
    hide Sound, RoutineKey;
    Shapes();
  }

  lemma NumberFine()
    ensures FineBlocks(Routine(NUMBER), RoutineKey(NUMBER), false)
  {
    hide FineBlock, RoutineKey;
    NumberHeadFine();
    NumberTailFine();
  }

  lemma WordFine()
    ensures FineBlocks(Routine(WORD), RoutineKey(WORD), false)
  {
    hide FineBlock, RoutineKey;
    WordBlocksFine();
  }

  lemma FindFine()
    ensures FineBlocks(Routine(FIND), RoutineKey(FIND), false)
  {
    hide FineBlock, RoutineKey;
    FindHeadFine();
    FindMiddleFine();
    FindTailFine();
  }

  /** Every routine's blocks are shaped, their labels come in the order of the source, and only `LIT`
      and `EXIT` write a register that is not scratch: `IP`. */
  lemma RoutineFine(p: Prim)
    ensures FineBlocks(Routine(p), RoutineKey(p), MovesIp(p))
  {
    hide FineBlocks, RoutineKey, Routine;
    if p == NUMBER {
      NumberFine();
    } else if p == WORD {
      WordFine();
    } else if p == FIND {
      FindFine();
    } else {
      PlainFine(p);
    }
  }

  /** There is room for each block in the numbering of the labels. */
  lemma RoutineShort(p: Prim)
    ensures |Routine(p)| <= 20
  {
  }

  lemma PlainFine(p: Prim)
    requires p != NUMBER && p != WORD && p != FIND
    ensures FineBlocks(Routine(p), RoutineKey(p), MovesIp(p))
  {
    hide FineBlocks, Routine, RoutineKey;
    if p in {LIT, EXIT, BYE, DUP, DROP, SWAP} {
      ControlFine(p);
    } else if p in {OVER, ROT, NROT, NIP, TUCK} {
      StackFine(p);
    } else if p in {PLUS, MINUS, NEGATE, ONEPLUS, ONEMINUS} {
      ArithmeticFine(p);
    } else if p in {FETCH, STOREW, CFETCH, CSTOREW, TOR, FROMR, RFETCH} {
      CellFine(p);
    } else if p in {BITAND, BITOR, BITINVERT, KEY, EMIT} {
      LogicFine(p);
    } else if p in {EQUALS, NOTEQUALS, ZEROEQ} {
      EqualityFine(p);
    } else if p in {LESSTHAN, GREATERTHAN, ZEROLT} {
      OrderFine(p);
    } else {
      LoopBlocksFine();
    }
  }

  /** No line of a routine changes a register of the inner interpreter, but for `IP` in `LIT` and `EXIT`. */
  lemma RoutineModest(p: Prim, k: nat, i: nat, labels: Labels, vm: Vm)
    requires k < |Routine(p)| && i < |Routine(p)[k]|
    requires var flow := RunLine(Text(Routine(p)[k][i]), labels, vm); flow.Falls? || flow.Goes?
    ensures forall r: Register :: Reserved(r) && !(r == IP && MovesIp(p)) ==>
      Read(RunLine(Text(Routine(p)[k][i]), labels, vm).vm.regs, Reg(r)) == Read(vm.regs, Reg(r))
  {
    hide Routine, RoutineKey, RunLine, WellFormed, FormNeat;
    RoutineFine(p);
    assert FineBlock(Routine(p)[k], RoutineKey(p) + k, MovesIp(p));
    assert LineShaped(Routine(p)[k], i, MovesIp(p));
    WritesOnly(Routine(p)[k][i], labels, vm);
  }
}
