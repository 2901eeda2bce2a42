/** The kernel's assembler source, line for line (`services/kernel/routines.py`). */
module KernelSource {
  import opened Wrappers
  import opened Isa
  import opened Assembler
  import opened Forms
  import Layout

  /** Offsets of header cells below a name field. */
  const IMMEDIATE_FROM_NAME_FIELD := 2
  const SMUDGE_FROM_NAME_FIELD := 1
  const LINK_FROM_NAME_FIELD := 3

  // ---- CORE_SOURCE ----

  const START_BLOCK := [At(START), SetLabel(NEXTREG, NEXT), One(JMP, NEXTREG)]
  const NEXT_BLOCK := [At(NEXT), Two(LOAD, W, IP), WithInt(ADD, IP, 1), Two(LOAD, XT, W), One(JMP, XT)]
  const ENTER_BLOCK := [At(ENTER), One(PUSH_R, IP), WithInt(ADD, W, 1), Copy(IP, W), One(JMP, NEXTREG)]

  // ---- PRIMITIVES ----

  const LIT_BLOCK := [At(Entry(LIT)), Two(LOAD, ACC, IP), One(PUSH_D, ACC), WithInt(ADD, IP, 1), One(JMP, NEXTREG)]
  const EXIT_BLOCK := [At(Entry(EXIT)), One(POP_R, IP), One(JMP, NEXTREG)]
  const BYE_BLOCK := [At(Entry(BYE)), Halts]

  const DUP_BLOCK := [At(Entry(DUP)), One(POP_D, X), One(PUSH_D, X), One(PUSH_D, X), One(JMP, NEXTREG)]
  const DROP_BLOCK := [At(Entry(DROP)), One(POP_D, X), One(JMP, NEXTREG)]
  const SWAP_BLOCK :=
    [At(Entry(SWAP)), One(POP_D, X), One(POP_D, Y), One(PUSH_D, X), One(PUSH_D, Y), One(JMP, NEXTREG)]
  const OVER_BLOCK :=
    [At(Entry(OVER)), One(POP_D, X), One(POP_D, Y), One(PUSH_D, Y), One(PUSH_D, X), One(PUSH_D, Y), One(JMP, NEXTREG)]
  const ROT_BLOCK :=
    [At(Entry(ROT)), One(POP_D, X), One(POP_D, Y), One(POP_D, Z), One(PUSH_D, Y), One(PUSH_D, X), One(PUSH_D, Z),
     One(JMP, NEXTREG)]
  const NROT_BLOCK :=
    [At(Entry(NROT)), One(POP_D, X), One(POP_D, Y), One(POP_D, Z), One(PUSH_D, X), One(PUSH_D, Z), One(PUSH_D, Y),
     One(JMP, NEXTREG)]
  const NIP_BLOCK := [At(Entry(NIP)), One(POP_D, X), One(POP_D, Y), One(PUSH_D, X), One(JMP, NEXTREG)]
  const TUCK_BLOCK :=
    [At(Entry(TUCK)), One(POP_D, X), One(POP_D, Y), One(PUSH_D, X), One(PUSH_D, Y), One(PUSH_D, X), One(JMP, NEXTREG)]

  const PLUS_BLOCK :=
    [At(Entry(PLUS)), One(POP_D, X), One(POP_D, Y), Two(ADD, Y, X), One(PUSH_D, Y), One(JMP, NEXTREG)]
  const MINUS_BLOCK :=
    [At(Entry(MINUS)), One(POP_D, X), One(POP_D, Y), Two(SUB, Y, X), One(PUSH_D, Y), One(JMP, NEXTREG)]
  const MUL_BLOCK := [At(Entry(MUL)), One(POP_D, X), One(POP_D, Y), Two(SUB, ACC, ACC)]
  const MUL_LOOP_BLOCK :=
    [At(MUL_LOOP), To(JZ, X, MUL_DONE), Two(ADD, ACC, Y), WithInt(SUB, X, 1), SetLabel(R, MUL_LOOP), One(JMP, R)]
  const MUL_DONE_BLOCK := [At(MUL_DONE), One(PUSH_D, ACC), One(JMP, NEXTREG)]
  const NEGATE_BLOCK :=
    [At(Entry(NEGATE)), One(POP_D, X), Two(SUB, Y, Y), Two(SUB, Y, X), One(PUSH_D, Y), One(JMP, NEXTREG)]
  const ABS_BLOCK := [At(Entry(ABS)), One(POP_D, X), To(JS, X, ABS_NEG), One(PUSH_D, X), One(JMP, NEXTREG)]
  const ABS_NEG_BLOCK := [At(ABS_NEG), Two(SUB, Y, Y), Two(SUB, Y, X), One(PUSH_D, Y), One(JMP, NEXTREG)]
  const ONE_PLUS_BLOCK := [At(Entry(ONEPLUS)), One(POP_D, X), WithInt(ADD, X, 1), One(PUSH_D, X), One(JMP, NEXTREG)]
  const ONE_MINUS_BLOCK := [At(Entry(ONEMINUS)), One(POP_D, X), WithInt(SUB, X, 1), One(PUSH_D, X), One(JMP, NEXTREG)]

  /** `@` and its alias `C@`. */
  function FetchBlock(p: Prim): seq<Form> {
    [At(Entry(p)), One(POP_D, X), Two(LOAD, Y, X), One(PUSH_D, Y), One(JMP, NEXTREG)]
  }

  /** `!` and its alias `C!`. */
  function StoreBlock(p: Prim): seq<Form> {
    [At(Entry(p)), One(POP_D, X), One(POP_D, Y), Two(STORE, X, Y), One(JMP, NEXTREG)]
  }

  const TO_R_BLOCK := [At(Entry(TOR)), One(POP_D, X), One(PUSH_R, X), One(JMP, NEXTREG)]
  const FROM_R_BLOCK := [At(Entry(FROMR)), One(POP_R, X), One(PUSH_D, X), One(JMP, NEXTREG)]
  const RFetchBlock := [At(Entry(RFETCH)), One(POP_R, X), One(PUSH_R, X), One(PUSH_D, X), One(JMP, NEXTREG)]

  /** The tail of a comparison: push the flag held in `Z`. */
  function FlagLines(flag: int): seq<Form> { [SetInt(Z, flag), One(PUSH_D, Z), One(JMP, NEXTREG)] }

  function LabelledFlag(l: Label, flag: int): seq<Form> {
    [At(l), SetInt(Z, flag), One(PUSH_D, Z), One(JMP, NEXTREG)]
  }

  const EQUALS_BLOCK := [At(Entry(EQUALS)), One(POP_D, X), One(POP_D, Y), Two(SUB, Y, X), To(JZ, Y, EQ_TRUE)]
  const NOT_EQUALS_BLOCK := [At(Entry(NOTEQUALS)), One(POP_D, X), One(POP_D, Y), Two(SUB, Y, X), To(JZ, Y, NE_FALSE)]
  const LESS_THAN_BLOCK := [At(Entry(LESSTHAN)), One(POP_D, X), One(POP_D, Y), Two(SUB, Y, X), To(JS, Y, LT_TRUE)]
  const GREATER_THAN_BLOCK := [At(Entry(GREATERTHAN)), One(POP_D, X), One(POP_D, Y), Two(SUB, X, Y), To(JS, X, GT_TRUE)]
  const ZERO_EQ_BLOCK := [At(Entry(ZEROEQ)), One(POP_D, X), To(JZ, X, ZE_TRUE)]
  const ZERO_LT_BLOCK := [At(Entry(ZEROLT)), One(POP_D, X), To(JS, X, ZL_TRUE)]

  const AND_BLOCK :=
    [At(Entry(BITAND)), One(POP_D, X), One(POP_D, Y), Two(AND, Y, X), One(PUSH_D, Y), One(JMP, NEXTREG)]
  const OR_BLOCK :=
    [At(Entry(BITOR)), One(POP_D, X), One(POP_D, Y), Two(OR, Y, X), One(PUSH_D, Y), One(JMP, NEXTREG)]
  const INVERT_BLOCK := [At(Entry(BITINVERT)), One(POP_D, X), One(INVERT, X), One(PUSH_D, X), One(JMP, NEXTREG)]

  const KEY_BLOCK := [At(Entry(KEY)), One(IN, X), One(PUSH_D, X), One(JMP, NEXTREG)]
  const EMIT_BLOCK := [At(Entry(EMIT)), One(POP_D, X), One(OUT, X), One(JMP, NEXTREG)]

  const NUMBER_BLOCK :=
    [At(Entry(NUMBER)), One(POP_D, PTR), Two(LOAD, LEN, PTR), WithInt(ADD, PTR, 1), Two(SUB, N, N), Two(SUB, NEG, NEG),
     To(JZ, LEN, NUM_FAIL)]
  const NUMBER_SIGN_BLOCK :=
    [Two(LOAD, C, PTR), Copy(T, C), WithInt(SUB, T, 45), To(JZ, T, NUM_NEG), SetLabel(R, NUM_LOOP), One(JMP, R)]
  const NUM_NEG_BLOCK :=
    [At(NUM_NEG), SetInt(NEG, 1), WithInt(ADD, PTR, 1), WithInt(SUB, LEN, 1), To(JZ, LEN, NUM_FAIL)]
  const NUM_LOOP_BLOCK :=
    [At(NUM_LOOP), To(JZ, LEN, NUM_DONE), Two(LOAD, C, PTR), Copy(DIGIT, C), WithInt(SUB, DIGIT, 48),
     To(JS, DIGIT, NUM_FAIL), Copy(T, DIGIT), WithInt(SUB, T, 10), To(JS, T, NUM_DIGIT_OK), SetLabel(R, NUM_FAIL),
     One(JMP, R)]
  const NUM_DIGIT_OK_BLOCK :=
    [At(NUM_DIGIT_OK), Copy(T, N), Two(ADD, T, T), Copy(U, T), Two(ADD, T, T), Two(ADD, T, T), Two(ADD, T, U)]
  const NUM_DIGIT_ADD_BLOCK := [Copy(N, T), Two(ADD, N, DIGIT)]
  const NUM_ADVANCE_BLOCK := [WithInt(ADD, PTR, 1), WithInt(SUB, LEN, 1), SetLabel(R, NUM_LOOP), One(JMP, R)]
  const NUM_DONE_BLOCK := [At(NUM_DONE), To(JZ, NEG, NUM_PUSH), Copy(T, N), Two(SUB, N, N), Two(SUB, N, T)]
  const NUM_PUSH_BLOCK := [At(NUM_PUSH), One(PUSH_D, N), SetInt(FLAG, 1), One(PUSH_D, FLAG), One(JMP, NEXTREG)]
  const NUM_FAIL_BLOCK := [At(NUM_FAIL), Two(SUB, Z, Z), One(PUSH_D, Z), One(PUSH_D, Z), One(JMP, NEXTREG)]

  const WORD_BLOCK := [At(Entry(WORD)), One(POP_D, DELIM)]
  const WORD_SKIP_BLOCK := [At(WORD_SKIP), One(IN, C), Copy(T, C), Two(SUB, T, DELIM), To(JZ, T, WORD_SKIP)]
  const WORD_OPEN_BLOCK := [SetInt(PTR, Layout.WORD_BUFFER_BASE), WithInt(ADD, PTR, 1), Two(SUB, LEN, LEN)]
  const WORD_COLLECT_BLOCK :=
    [At(WORD_COLLECT), Two(STORE, PTR, C), WithInt(ADD, PTR, 1), WithInt(ADD, LEN, 1), One(IN, C), Copy(T, C),
     Two(SUB, T, DELIM), To(JZ, T, WORD_END), SetLabel(R, WORD_COLLECT), One(JMP, R)]
  const WORD_END_BLOCK :=
    [At(WORD_END), SetInt(PTR, Layout.WORD_BUFFER_BASE), Two(STORE, PTR, LEN), One(PUSH_D, PTR), One(JMP, NEXTREG)]

  const FIND_BLOCK :=
    [At(Entry(FIND)), One(POP_D, NAMEADDR), Two(LOAD, SLEN, NAMEADDR), SetInt(T, Layout.LATEST_ADDR), Two(LOAD, CUR, T)]
  const FIND_LOOP_BLOCK :=
    [At(FIND_LOOP), To(JZ, CUR, FIND_NOTFOUND), Copy(T, CUR), WithInt(SUB, T, SMUDGE_FROM_NAME_FIELD),
     Two(LOAD, SMUDGE, T), To(JZ, SMUDGE, FIND_VISIBLE), SetLabel(R, FIND_NEXT), One(JMP, R)]
  const FIND_VISIBLE_BLOCK :=
    [At(FIND_VISIBLE), Two(LOAD, WLEN, CUR), Copy(T, WLEN), Two(SUB, T, SLEN), To(JZ, T, FIND_CMP),
     SetLabel(R, FIND_NEXT), One(JMP, R)]
  const FIND_CMP_BLOCK := [At(FIND_CMP), Copy(WPTR, CUR), WithInt(ADD, WPTR, 1)]
  const FIND_CMP_REST_BLOCK := [Copy(SPTR, NAMEADDR), WithInt(ADD, SPTR, 1), Copy(COUNT, SLEN)]
  const FIND_CHARS_BLOCK :=
    [At(FIND_CHARS), To(JZ, COUNT, FIND_MATCH), Two(LOAD, WC, WPTR), Two(LOAD, SC, SPTR), Copy(T, WC), Two(SUB, T, SC),
     To(JZ, T, FIND_CHAR_OK), SetLabel(R, FIND_NEXT), One(JMP, R)]
  const FIND_CHAR_OK_BLOCK :=
    [At(FIND_CHAR_OK), WithInt(ADD, WPTR, 1), WithInt(ADD, SPTR, 1), WithInt(SUB, COUNT, 1), SetLabel(R, FIND_CHARS),
     One(JMP, R)]
  const FIND_MATCH_BLOCK :=
    [At(FIND_MATCH), Copy(CFA, CUR), WithInt(ADD, CFA, 1), Two(ADD, CFA, WLEN), One(PUSH_D, CFA)]
  const FIND_FLAG_BLOCK :=
    [Copy(T, CUR), WithInt(SUB, T, IMMEDIATE_FROM_NAME_FIELD), Two(LOAD, IMM, T), To(JZ, IMM, FIND_NORMAL)]
  const FIND_IMMEDIATE_BLOCK := [SetInt(FLAG, 1), One(PUSH_D, FLAG), One(JMP, NEXTREG)]
  const FIND_NORMAL_BLOCK :=
    [At(FIND_NORMAL), Two(SUB, FLAG, FLAG), WithInt(SUB, FLAG, 1), One(PUSH_D, FLAG), One(JMP, NEXTREG)]
  const FIND_NEXT_BLOCK :=
    [At(FIND_NEXT), Copy(T, CUR), WithInt(SUB, T, LINK_FROM_NAME_FIELD), Two(LOAD, CUR, T), SetLabel(R, FIND_LOOP),
     One(JMP, R)]
  const FIND_NOT_FOUND_BLOCK := [At(FIND_NOTFOUND), Two(SUB, T, T), One(PUSH_D, T), One(PUSH_D, T), One(JMP, NEXTREG)]

  /** The blocks of a primitive's routine, in order. */
  function Routine(p: Prim): seq<seq<Form>> {
    match p
    case LIT => [LIT_BLOCK]
    case EXIT => [EXIT_BLOCK]
    case BYE => [BYE_BLOCK]
    case DUP => [DUP_BLOCK]
    case DROP => [DROP_BLOCK]
    case SWAP => [SWAP_BLOCK]
    case OVER => [OVER_BLOCK]
    case ROT => [ROT_BLOCK]
    case NROT => [NROT_BLOCK]
    case NIP => [NIP_BLOCK]
    case TUCK => [TUCK_BLOCK]
    case PLUS => [PLUS_BLOCK]
    case MINUS => [MINUS_BLOCK]
    case MUL => [MUL_BLOCK, MUL_LOOP_BLOCK, MUL_DONE_BLOCK]
    case NEGATE => [NEGATE_BLOCK]
    case ABS => [ABS_BLOCK, ABS_NEG_BLOCK]
    case ONEPLUS => [ONE_PLUS_BLOCK]
    case ONEMINUS => [ONE_MINUS_BLOCK]
    case FETCH => [FetchBlock(FETCH)]
    case STOREW => [StoreBlock(STOREW)]
    case CFETCH => [FetchBlock(CFETCH)]
    case CSTOREW => [StoreBlock(CSTOREW)]
    case TOR => [TO_R_BLOCK]
    case FROMR => [FROM_R_BLOCK]
    case RFETCH => [RFetchBlock]
    case EQUALS => [EQUALS_BLOCK, FlagLines(0), LabelledFlag(EQ_TRUE, -1)]
    case NOTEQUALS => [NOT_EQUALS_BLOCK, FlagLines(-1), LabelledFlag(NE_FALSE, 0)]
    case LESSTHAN => [LESS_THAN_BLOCK, FlagLines(0), LabelledFlag(LT_TRUE, -1)]
    case GREATERTHAN => [GREATER_THAN_BLOCK, FlagLines(0), LabelledFlag(GT_TRUE, -1)]
    case ZEROEQ => [ZERO_EQ_BLOCK, FlagLines(0), LabelledFlag(ZE_TRUE, -1)]
    case ZEROLT => [ZERO_LT_BLOCK, FlagLines(0), LabelledFlag(ZL_TRUE, -1)]
    case BITAND => [AND_BLOCK]
    case BITOR => [OR_BLOCK]
    case BITINVERT => [INVERT_BLOCK]
    case KEY => [KEY_BLOCK]
    case EMIT => [EMIT_BLOCK]
    case NUMBER =>
      [NUMBER_BLOCK, NUMBER_SIGN_BLOCK, NUM_NEG_BLOCK, NUM_LOOP_BLOCK, NUM_DIGIT_OK_BLOCK, NUM_DIGIT_ADD_BLOCK,
       NUM_ADVANCE_BLOCK, NUM_DONE_BLOCK, NUM_PUSH_BLOCK, NUM_FAIL_BLOCK]
    case WORD => [WORD_BLOCK, WORD_SKIP_BLOCK, WORD_OPEN_BLOCK, WORD_COLLECT_BLOCK, WORD_END_BLOCK]
    case FIND =>
      [FIND_BLOCK, FIND_LOOP_BLOCK, FIND_VISIBLE_BLOCK, FIND_CMP_BLOCK, FIND_CMP_REST_BLOCK, FIND_CHARS_BLOCK,
       FIND_CHAR_OK_BLOCK, FIND_MATCH_BLOCK, FIND_FLAG_BLOCK, FIND_IMMEDIATE_BLOCK, FIND_NORMAL_BLOCK, FIND_NEXT_BLOCK,
       FIND_NOT_FOUND_BLOCK]
  }

  function Join(blocks: seq<seq<Form>>): seq<Form> {
    if blocks == [] then [] else blocks[0] + Join(blocks[1..])
  }

  const CONTROL_WORDS := [LIT, EXIT, BYE]
  const STACK_WORDS := [DUP, DROP, SWAP, OVER, ROT, NROT, NIP, TUCK]
  const ARITHMETIC_WORDS := [PLUS, MINUS, MUL, NEGATE, ABS, ONEPLUS, ONEMINUS]
  const MEMORY_WORDS := [FETCH, STOREW, CFETCH, CSTOREW]
  const RETURN_WORDS := [TOR, FROMR, RFETCH]
  const COMPARISON_WORDS := [EQUALS, NOTEQUALS, LESSTHAN, GREATERTHAN, ZEROEQ, ZEROLT]
  const LOGIC_WORDS := [BITAND, BITOR, BITINVERT]
  const TEXT_WORDS := [KEY, EMIT, NUMBER, WORD, FIND]

  /** `PRIMITIVES`: every CODE word, in dictionary order. */
  const PRIMITIVES: seq<Prim> :=
    CONTROL_WORDS + STACK_WORDS + ARITHMETIC_WORDS + MEMORY_WORDS + RETURN_WORDS + COMPARISON_WORDS + LOGIC_WORDS
    + TEXT_WORDS

  /** The dictionary name of a CODE word. */
  function WordName(p: Prim): string {
    match p
    case LIT => "LIT" case EXIT => "EXIT" case BYE => "BYE"
    case DUP => "DUP" case DROP => "DROP" case SWAP => "SWAP" case OVER => "OVER"
    case ROT => "ROT" case NROT => "-ROT" case NIP => "NIP" case TUCK => "TUCK"
    case PLUS => "+" case MINUS => "-" case MUL => "*" case NEGATE => "NEGATE"
    case ABS => "ABS" case ONEPLUS => "1+" case ONEMINUS => "1-"
    case FETCH => "@" case STOREW => "!" case CFETCH => "C@" case CSTOREW => "C!"
    case TOR => ">R" case FROMR => "R>" case RFETCH => "R@"
    case EQUALS => "=" case NOTEQUALS => "<>" case LESSTHAN => "<" case GREATERTHAN => ">"
    case ZEROEQ => "0=" case ZEROLT => "0<"
    case BITAND => "AND" case BITOR => "OR" case BITINVERT => "INVERT"
    case KEY => "KEY" case EMIT => "EMIT" case NUMBER => "NUMBER" case WORD => "WORD" case FIND => "FIND"
  }

  function RoutinesOf(prims: seq<Prim>): seq<Form> {
    if prims == [] then [] else Join(Routine(prims[0])) + RoutinesOf(prims[1..])
  }

  /** `CORE_SOURCE`. */
  const CORE: seq<seq<Form>> := [START_BLOCK] + [NEXT_BLOCK] + [ENTER_BLOCK]

  /** `KERNEL_SOURCE`. */
  const KERNEL_SOURCE: seq<Line> := Lines(Join(CORE) + RoutinesOf(PRIMITIVES))
}
