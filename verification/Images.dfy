/** Every image that `build` accepts has a machine booted on it: the theorems about booted images speak of
    something. */
module Images {
  import opened Wrappers
  import opened Isa
  import opened Cpu
  import opened Layout
  import opened Stacks
  import opened Assembler
  import opened KernelSource
  import opened KernelLayout
  import opened DictionaryShape
  import opened DictionaryAdapter
  import opened Evaluation
  import opened Building
  import opened Correctness
  import opened EndToEnd
  import opened KernelBuilder
  import opened Separation
  import KernelAssembles
  import M = Machine

  /** `mem` with `cells` written from `at` on. */
  function Overlay(mem: seq<int>, at: nat, cells: seq<int>): (mem': seq<int>)
    requires at + |cells| <= |mem|
    ensures |mem'| == |mem|
    ensures forall a :: 0 <= a < |mem| && !(at <= a < at + |cells|) ==> mem'[a] == mem[a]
    ensures mem'[at..at + |cells|] == cells
  {
    mem[..at] + cells + mem[at + |cells|..]
  }

  /** Memory that holds the words `es`, laid down one after the other. */
  lemma {:induction false} MemoryOf(es: seq<WordEntry>, size: nat) returns (mem: seq<int>)
    requires End(es) <= size
    ensures |mem| == size && Chain(mem, es)
  {
    EndAtLeast(es);
    if es == [] {
      mem := seq(size, _ => 0);
    } else {
      var n := |es| - 1;
      var prior, e := es[..n], es[n];
      EndAtLeast(prior);
      var mem0 := MemoryOf(prior, size);
      var mem1 := Overlay(mem0, End(prior), e.before + EntryCells(e, Link(prior, n)));
      mem := mem1[LATEST_ADDR := End(prior) + |e.before| + 3];
      hide EntryAt, NameField, Link, Chain, EntryCells, Overlay;
      ChainLatest(mem0, prior);
      ChainFrame(mem0, mem1, prior);
      CellsBecomeWord(mem1, mem, prior, e);
      assert prior + [e] == es;
    }
  }

  /** Memory that holds an image. */
  lemma ImageMemory(asm: Assembly, words: seq<WordSpec>, boot: seq<ThreadItem>, size: nat) returns (mem: seq<int>)
    requires Accepted(words, boot) && DICTIONARY_SIZE <= size
    ensures |mem| == size && ImageIn(asm, words, boot, mem[..DICTIONARY_SIZE])
  {
    hide EntriesOf, Chain, ItemCell, AllResolvable, BootResolvable, ImageIn, End, ImageEnd;
    var es := EntriesOf(asm, words);
    ImageEndIsEnd(asm, words);
    EndAtLeast(es);
    var mem0 := MemoryOf(es, size);
    var cells := ItemCells(words, es, boot);
    mem := Overlay(mem0, End(es), cells);
    hide Overlay, ItemCells;
    ChainFrame(mem0, mem, es);
    BuiltImage(asm, words, boot, mem);
  }

  /** For every list of words and boot thread that `build` accepts there is a machine just booted on
      their image, its stacks empty and its input `input`. */
  lemma BootedOn(words: seq<WordSpec>, boot: seq<ThreadItem>, input: seq<int>) returns (m: M.State)
    requires Accepted(words, boot)
    ensures KernelLoaded(Kernel()) && Fresh(words, boot, input, m)
  {
    hide Accepted, ImageIn, ImageEnd, Assemble;
    KernelAssembles.KernelAssembled();
    var mem := ImageMemory(Kernel(), words, boot, MEMORY_SIZE);
    m := M.State(0, false, Bind(Regs(map[]), Reg(IP), BootIp(words)), mem, DATA_STACK_BASE, RETURN_STACK_BASE, input, []);
  }

  // ---- the kernel's own words ----

  lemma ShortName(p: Prim)
    ensures |WordName(p)| <= 6
  {
  }

  lemma {:induction false} EndAtMost(words: seq<WordSpec>)
    requires forall w :: w in words ==> w.CodeWord? && |w.name| <= 6
    ensures ImageEnd(words) <= DICTIONARY_BASE + 11 * |words|
  {
    if words != [] {
      var n := |words| - 1;
      assert words[n] in words;
      assert forall w :: w in words[..n] ==> w in words;
      EndAtMost(words[..n]);
    }
  }

  /** The kernel's words alone are an image, with any boot thread of them that fits in some 1600 cells. */
  lemma KernelAccepted(boot: seq<ThreadItem>)
    requires BootResolvable(AllWords([]), boot) && |boot| <= 1600
    ensures Accepted(AllWords([]), boot)
  {
    hide WordName, AllWords, BootResolvable;
    var words := AllWords([]);
    KernelWordsOnly();
    forall w | w in words
      ensures w.CodeWord? && |w.name| <= 6
    {
      var k :| 0 <= k < |words| && words[k] == w;
      AllWordsAt([], k);
      ShortName(PRIMITIVES[k]);
    }
    EndAtMost(words);
    assert forall k :: 0 <= k < |words| ==> words[k] in words;
  }

  lemma KernelWordsOnly()
    ensures |AllWords([])| == |PRIMITIVES| == 39
  {
    hide WordName;
  }
}
