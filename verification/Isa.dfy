/** The instruction set and the names programs are written with (`domain/opcode.py`, `domain/dtos.py`). */
module Isa {
  import opened Wrappers

  datatype Opcode =
    | LOAD | STORE | ADD | SUB | JMP | JZ | JS | PUSH_D | POP_D | PUSH_R | POP_R
    | AND | OR | INVERT | IN | OUT | HALT

  /** The registers the kernel uses: the four reserved ones, then scratch. */
  datatype Register =
    | IP | W | XT | NEXTREG
    | X | Y | Z | ACC | R | PTR | LEN | N | NEG | C | T | DIGIT | U | FLAG | DELIM
    | NAMEADDR | SLEN | CUR | SMUDGE | WLEN | WPTR | SPTR | COUNT | WC | SC | CFA | IMM

  /** The kernel's CODE words, named by the label of their routine. */
  datatype Prim =
    | LIT | EXIT | BYE
    | DUP | DROP | SWAP | OVER | ROT | NROT | NIP | TUCK
    | PLUS | MINUS | MUL | NEGATE | ABS | ONEPLUS | ONEMINUS
    | FETCH | STOREW | CFETCH | CSTOREW
    | TOR | FROMR | RFETCH
    | EQUALS | NOTEQUALS | LESSTHAN | GREATERTHAN | ZEROEQ | ZEROLT
    | BITAND | BITOR | BITINVERT
    | KEY | EMIT | NUMBER | WORD | FIND

  datatype Label =
    | START | NEXT | ENTER
    | Entry(prim: Prim)
    | MUL_LOOP | MUL_DONE | ABS_NEG
    | EQ_TRUE | NE_FALSE | LT_TRUE | GT_TRUE | ZE_TRUE | ZL_TRUE
    | NUM_NEG | NUM_LOOP | NUM_DIGIT_OK | NUM_DONE | NUM_PUSH | NUM_FAIL
    | WORD_SKIP | WORD_COLLECT | WORD_END
    | FIND_LOOP | FIND_VISIBLE | FIND_CMP | FIND_CHARS | FIND_CHAR_OK
    | FIND_MATCH | FIND_NORMAL | FIND_NEXT | FIND_NOTFOUND

  /** An interned identifier. Registers and labels share one name space; the kernel's own
      identifiers have constructors and every other spelling is an `Other`. */
  datatype Name = Reg(reg: Register) | Lbl(lbl: Label) | Other(text: string)

  /** The `b` field of an instruction: a register name or an immediate. */
  datatype Operand = InReg(name: Name) | Imm(value: int)

  datatype InstructionDto =
    InstructionDto(opcode: Opcode, a: Option<Name>, b: Option<Operand>, offset: Option<int>)
}
