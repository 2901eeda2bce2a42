/** A downward-growing stack inside a shared memory (`adapters/stack.py`). */
module StackAdapter {
  import opened Wrappers
  import opened Cpu
  import opened Stacks

  /** The stack occupies `memory[floor..base]`; its live cells are `memory[pointer..base]`. */
  class DownwardStack {
    const memory: array<int>
    const base: int
    const floor: int
    var pointer: int

    ghost predicate Valid()
      reads this
    {
      0 <= floor <= pointer <= base <= memory.Length
    }

    /** The stack as a LIFO, top first. */
    ghost function Contents(): Stack
      reads this, memory
      requires Valid()
    {
      StackAt(memory[..], pointer, base)
    }

    constructor (memory: array<int>, base: int, size: int)
      requires 0 <= size <= base <= memory.Length
      ensures Valid()
      ensures this.memory == memory && this.base == base && floor == base - size && pointer == base
      ensures Contents() == Empty
    {
      this.memory := memory;
      this.base := base;
      floor := base - size;
      pointer := base;
    }

    /** Push `value`, or raise when the region is full; no cell but the new top changes. */
    method Push(value: int) returns (r: Result<(), MachineError>)
      requires Valid()
      modifies this`pointer, memory
      ensures Valid()
      ensures r.Ok? <==> old(Depth(Contents())) < base - floor
      ensures r.Ok? ==> Contents() == Stack.Push(value, old(Contents()))
      ensures r.Ok? ==> pointer == old(pointer) - 1 && memory[..] == old(memory[..])[pointer := value]
      ensures r.Err? ==> r.error == StackOverflow && pointer == old(pointer) && memory[..] == old(memory[..])
    {
      StackAtDepth(memory[..], pointer, base);
      if pointer <= floor {
        return Err(StackOverflow);
      }
      ghost var before := memory[..];
      pointer := pointer - 1;
      memory[pointer] := value;
      StackAtFrame(before, memory[..], pointer + 1, base);
      return Ok(());
    }

    /** Pop the top value, or raise when there is none; no cell changes. */
    method Pop() returns (r: Result<int, MachineError>)
      requires Valid()
      modifies this`pointer
      ensures Valid()
      ensures r.Ok? <==> old(Contents()).Push?
      ensures r.Ok? ==> r.value == old(Contents()).top && Contents() == old(Contents()).rest
      ensures r.Ok? ==> r.value == memory[old(pointer)] && pointer == old(pointer) + 1
      ensures r.Err? ==> r.error == StackUnderflow && pointer == old(pointer)
    {
      if pointer >= base {
        return Err(StackUnderflow);
      }
      var value := memory[pointer];
      pointer := pointer + 1;
      return Ok(value);
    }

    /** The top value, left where it is. */
    method Peek() returns (r: Result<int, MachineError>)
      requires Valid()
      ensures r.Ok? <==> Contents().Push?
      ensures r.Ok? ==> r.value == Contents().top
      ensures r.Err? ==> r.error == StackUnderflow
    {
      if pointer >= base {
        return Err(StackUnderflow);
      }
      return Ok(memory[pointer]);
    }
  }
}
