/** The memory map of `layout.py`: one flat memory shared by the system variables, the dictionary,
    the WORD buffer and the two downward stacks. */
module Layout {

  const DICTIONARY_SIZE := 2048
  const DATA_STACK_SIZE := 1024
  const RETURN_STACK_SIZE := 1024

  const DATA_STACK_BASE := DICTIONARY_SIZE + DATA_STACK_SIZE
  const RETURN_STACK_BASE := DATA_STACK_BASE + RETURN_STACK_SIZE
  const MEMORY_SIZE := RETURN_STACK_BASE

  const DP_ADDR := 0
  const LATEST_ADDR := 1
  const DICTIONARY_BASE := 8
  const DICTIONARY_TOP := DICTIONARY_SIZE

  const WORD_BUFFER_SIZE := 64
  const WORD_BUFFER_BASE := DICTIONARY_SIZE - WORD_BUFFER_SIZE

  /** The map in cells: eight for the system, the dictionary up to the buffer of `WORD`, then the two stacks,
      which grow down to where the region before theirs ends. */
  lemma MemoryMap()
    ensures DP_ADDR == 0 && LATEST_ADDR == 1 && DICTIONARY_BASE == 8
    ensures WORD_BUFFER_BASE == 1984 && WORD_BUFFER_SIZE == 64 && DICTIONARY_TOP == DICTIONARY_SIZE == 2048
    ensures DATA_STACK_BASE == 3072 && DATA_STACK_SIZE == 1024
    ensures RETURN_STACK_BASE == 4096 && RETURN_STACK_SIZE == 1024 && MEMORY_SIZE == 4096
  {
  }
}
