/** The dictionary `KernelBuilder.build` lays out: which words it accepts, and the cells they become. */
module Building {
  import opened Wrappers
  import opened Isa
  import opened Layout
  import opened Assembler
  import opened KernelSource
  import opened Symbolic
  import opened KernelLayout
  import opened DictionaryShape
  import opened Words
  import opened Evaluation
  import opened Threading

  /** `CODE_WORDS`. */
  function CodeWords(prims: seq<Prim>): (words: seq<WordSpec>)
    ensures |words| == |prims|
    ensures forall i :: 0 <= i < |prims| ==> words[i] == CodeWord(WordName(prims[i]), prims[i], false)
  {
    seq(|prims|, i requires 0 <= i < |prims| => CodeWord(WordName(prims[i]), prims[i], false))
  }

  /** Everything the image installs, in order. */
  function AllWords(colon: seq<WordSpec>): seq<WordSpec> { CodeWords(PRIMITIVES) + colon }

  /** The words of an image: the primitives, then the colon words. */
  lemma AllWordsAt(colon: seq<WordSpec>, k: nat)
    requires k < |AllWords(colon)| && forall w :: w in colon ==> w.ColonWord?
    ensures AllWords(colon)[k].CodeWord? <==> k < |PRIMITIVES|
    ensures |AllWords(colon)| == |PRIMITIVES| + |colon|
    ensures AllWords(colon)[k]
         == if k < |PRIMITIVES| then CodeWord(WordName(PRIMITIVES[k]), PRIMITIVES[k], false)
            else colon[k - |PRIMITIVES|]
  {
    hide WordName;
    var n := |PRIMITIVES|;
    assert k >= n ==> AllWords(colon)[k] == colon[k - n] && colon[k - n] in colon;
  }

  /** A colon word can be installed after `before` when each word of its thread is there already. */
  predicate Resolvable(before: seq<WordSpec>, w: WordSpec) {
    w.ColonWord? ==>
      forall item :: item in ItemsOf(w.words) ==> item.WordReference? && Lookup(before, item.name).Some?
  }

  predicate AllResolvable(words: seq<WordSpec>) {
    forall i :: 0 <= i < |words| ==> Resolvable(words[..i], words[i])
  }

  /** The words a boot thread names are all installed. */
  predicate BootResolvable(words: seq<WordSpec>, boot: seq<ThreadItem>) {
    forall item :: item in boot && item.WordReference? ==> Lookup(words, item.name).Some?
  }

  /** The cell of a thread item, given the words installed so far and their entries. */
  function ItemCell(words: seq<WordSpec>, es: seq<WordEntry>, item: ThreadItem): int
    requires |es| == |words|
  {
    match item
    case LiteralCell(v) => v
    case WordReference(name) => if Lookup(words, name).Some? then Cfa(es, Lookup(words, name).value) else 0
  }

  function ItemCells(words: seq<WordSpec>, es: seq<WordEntry>, items: seq<ThreadItem>): (cells: seq<int>)
    requires |es| == |words|
    ensures |cells| == |items|
    ensures forall j :: 0 <= j < |items| ==> cells[j] == ItemCell(words, es, items[j])
  {
    seq(|items|, j requires 0 <= j < |items| => ItemCell(words, es, items[j]))
  }

  /** The entry a word becomes when it is installed after `before`. */
  function EntryOf(asm: Assembly, before: seq<WordSpec>, es: seq<WordEntry>, w: WordSpec): WordEntry
    requires |es| == |before|
  {
    WordEntry([], w.name, if w.immediate then 1 else 0, 0, FieldOf(asm, w),
              if w.ColonWord? then ItemCells(before, es, ItemsOf(w.words)) else [])
  }

  function EntriesOf(asm: Assembly, words: seq<WordSpec>): (es: seq<WordEntry>)
    ensures |es| == |words|
  {
    if words == [] then []
    else
      var before := words[..|words| - 1];
      var es := EntriesOf(asm, before);
      es + [EntryOf(asm, before, es, words[|words| - 1])]
  }

  /** The words installed with `asm`, and the first cell left to programs. */
  function ProgramOf(asm: Assembly, words: seq<WordSpec>, top: int): Program {
    Program(words, Context(EntriesOf(asm, words), top))
  }

  lemma {:induction false} EntriesPrefix(asm: Assembly, words: seq<WordSpec>, k: nat)
    requires k <= |words|
    ensures EntriesOf(asm, words)[..k] == EntriesOf(asm, words[..k])
    decreases |words|
  {
    hide EntryOf;
    if k < |words| {
      var before := words[..|words| - 1];
      EntriesPrefix(asm, before, k);
      assert before[..k] == words[..k];
      assert EntriesOf(asm, words)[..k] == EntriesOf(asm, before)[..k];
    } else {
      assert words[..k] == words;
    }
  }

  /** Installing more words moves none already there. */
  lemma CfaPrefix(es: seq<WordEntry>, k: nat, r: nat)
    requires r < k <= |es|
    ensures Cfa(es[..k], r) == Cfa(es, r)
  {
    assert es[..k][..r] == es[..r];
  }

  lemma EntryInstalled(asm: Assembly, words: seq<WordSpec>, i: nat)
    requires i < |words|
    ensures EntriesOf(asm, words)[i] == EntryOf(asm, words[..i], EntriesOf(asm, words[..i]), words[i])
  {
    hide EntryOf;
    EntriesPrefix(asm, words, i + 1);
    var upto := words[..i + 1];
    assert upto[..|upto| - 1] == words[..i];
    assert EntriesOf(asm, words)[i] == EntriesOf(asm, words)[..i + 1][i];
  }

  /** A thread item compiled when `limit` words were installed is the same cell for the whole program. */
  lemma CellStable(asm: Assembly, words: seq<WordSpec>, top: int, limit: nat, item: ThreadItem)
    requires limit <= |words|
    requires item.WordReference? ==> Lookup(words[..limit], item.name).Some?
    ensures CellOf(ProgramOf(asm, words, top), limit, item)
         == Some(ItemCell(words[..limit], EntriesOf(asm, words[..limit]), item))
  {
    hide EntriesOf, Cfa;
    if item.WordReference? {
      var r := Lookup(words[..limit], item.name).value;
      EntriesPrefix(asm, words, limit);
      CfaPrefix(EntriesOf(asm, words), limit, r);
    }
  }

  /** What `build` lays out is what the threading argument asks for. */
  lemma EntriesBuilt(asm: Assembly, words: seq<WordSpec>, top: int)
    requires Sited(asm) && AllResolvable(words)
    requires End(EntriesOf(asm, words)) <= top <= DICTIONARY_SIZE
    ensures Built(asm, ProgramOf(asm, words, top))
  {
    var p := ProgramOf(asm, words, top);
    hide Sited, EntriesOf;
    forall i | 0 <= i < |words|
      ensures Installed(asm, p, i)
    {
      EntryInstalled(asm, words, i);
      if words[i].ColonWord? {
        var items := ItemsOf(words[i].words);
        forall j | 0 <= j < |items|
          ensures CellOf(p, i, items[j]) == Some(p.context.dict[i].thread[j])
        {
          assert items[j] in items;
          CellStable(asm, words, top, i, items[j]);
        }
      }
    }
  }

  // ---- how many cells the image takes ----

  function WordSize(w: WordSpec): nat {
    5 + |w.name| + (if w.ColonWord? then |w.words| + 1 else 0)
  }

  /** The first cell after the words, whatever they resolve to. */
  function ImageEnd(words: seq<WordSpec>): int {
    if words == [] then DICTIONARY_BASE else ImageEnd(words[..|words| - 1]) + WordSize(words[|words| - 1])
  }

  lemma {:induction false} ImageEndIsEnd(asm: Assembly, words: seq<WordSpec>)
    ensures End(EntriesOf(asm, words)) == ImageEnd(words)
    decreases |words|
  {
    if words != [] {
      var before := words[..|words| - 1];
      var es := EntriesOf(asm, before);
      ImageEndIsEnd(asm, before);
      assert EntriesOf(asm, words)[..|words| - 1] == es;
    }
  }
}
