/** The abstract LIFO that a downward stack region stands for, top first. */
module Stacks {

  datatype Stack = Empty | Push(top: int, rest: Stack)

  function Depth(s: Stack): nat {
    match s
    case Empty => 0
    case Push(_, rest) => 1 + Depth(rest)
  }

  /** `s` standing on top of `below`. */
  function Over(s: Stack, below: Stack): Stack {
    match s
    case Empty => below
    case Push(top, rest) => Push(top, Over(rest, below))
  }

  lemma DepthOver(s: Stack, below: Stack)
    ensures Depth(Over(s, below)) == Depth(s) + Depth(below)
  {
  }

  /** The stack held by the cells `mem[pointer..base]`, whose first cell is the top. */
  function StackAt(mem: seq<int>, pointer: int, base: int): Stack
    requires 0 <= pointer <= base <= |mem|
    decreases base - pointer
  {
    if pointer == base then Empty else Push(mem[pointer], StackAt(mem, pointer + 1, base))
  }

  lemma {:induction false} StackAtDepth(mem: seq<int>, pointer: int, base: int)
    requires 0 <= pointer <= base <= |mem|
    ensures Depth(StackAt(mem, pointer, base)) == base - pointer
    decreases base - pointer
  {
    if pointer < base {
      StackAtDepth(mem, pointer + 1, base);
    }
  }

  /** A stack region only depends on its own live cells. */
  lemma {:induction false} StackAtFrame(mem: seq<int>, mem': seq<int>, pointer: int, base: int)
    requires 0 <= pointer <= base <= |mem| == |mem'|
    requires forall a :: pointer <= a < base ==> mem[a] == mem'[a]
    ensures StackAt(mem, pointer, base) == StackAt(mem', pointer, base)
    decreases base - pointer
  {
    if pointer < base {
      StackAtFrame(mem, mem', pointer + 1, base);
    }
  }
}
