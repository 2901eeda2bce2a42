/** Building and booting the threaded-code image (`services/kernel/builder.py`). */
module KernelBuilder {
  import opened Wrappers
  import opened Isa
  import opened Cpu
  import opened Layout
  import opened Assembler
  import opened KernelSource
  import opened Symbolic
  import opened KernelLayout
  import opened DictionaryShape
  import opened DictionaryAdapter
  import opened Words
  import opened Evaluation
  import opened Threading
  import opened Building
  import opened Correctness
  import opened AssemblerStages
  import opened Emulator
  import KernelAssembles
  import M = Machine

  datatype KernelError =
    | NotAssembled(error: AssemblerError)
    | StartMisplaced
    | NotInstalled(name: string)

  /** `KernelImageDto`. */
  datatype KernelImage = KernelImage(program: seq<InstructionDto>, wordCfas: map<string, int>, bootIp: int)

  /** `word_cfas` knows exactly the installed names, each by the newest word that has it. */
  ghost predicate Knows(wordCfas: map<string, int>, words: seq<WordSpec>, es: seq<WordEntry>)
    requires |es| == |words|
  {
    forall name: string {:trigger Lookup(words, name)} ::
      match Lookup(words, name)
      case None => name !in wordCfas
      case Some(r) => name in wordCfas && wordCfas[name] == Cfa(es, r)
  }

  /** `name` is the first of the thread's words that is not among `words`. */
  ghost predicate FirstUnknown(words: seq<WordSpec>, items: seq<ThreadItem>, name: string) {
    exists j :: 0 <= j < |items| && items[j] == WordReference(name) && Lookup(words, name).None?
                && forall k :: 0 <= k < j && items[k].WordReference? ==> Lookup(words, items[k].name).Some?
  }

  /** `name` is what stops `build`: the first unknown word of the first definition that has one, or, if
      none has, of the boot thread. */
  ghost predicate Dangling(name: string, words: seq<WordSpec>, boot: seq<ThreadItem>) {
    || (exists i :: 0 <= i < |words| && DanglingIn(name, words, i))
    || (AllResolvable(words) && FirstUnknown(words, boot, name))
  }

  ghost predicate DanglingIn(name: string, words: seq<WordSpec>, i: nat)
    requires i < |words|
  {
    && words[i].ColonWord? && FirstUnknown(words[..i], ItemsOf(words[i].words), name)
    && forall k :: 0 <= k < i ==> Resolvable(words[..k], words[k])
  }

  lemma KnowsNext(wordCfas: map<string, int>, words: seq<WordSpec>, es: seq<WordEntry>, w: WordSpec, e: WordEntry)
    requires |es| == |words| && Knows(wordCfas, words, es)
    ensures Knows(wordCfas[w.name := Cfa(es + [e], |es|)], words + [w], es + [e])
  {
    hide Cfa;
    var words' := words + [w];
    assert words'[..|words|] == words;
    forall name: string
      ensures Lookup(words', name) == if w.name == name then Some(|words|) else Lookup(words, name)
    {
    }
    forall r | 0 <= r < |es|
      ensures Cfa(es + [e], r) == Cfa(es, r)
    {
      CfaPrefix(es + [e], |es|, r);
      assert (es + [e])[..|es|] == es;
    }
  }

  lemma EntriesNext(asm: Assembly, words: seq<WordSpec>, i: nat)
    requires i < |words|
    ensures EntriesOf(asm, words[..i + 1])
         == EntriesOf(asm, words[..i]) + [EntryOf(asm, words[..i], EntriesOf(asm, words[..i]), words[i])]
  {
    assert words[..i + 1][..i] == words[..i];
  }

  /** The assembled kernel, which `KernelAssembled` shows there is. */
  function Kernel(): Assembly
  {
    if Assemble(KERNEL_SOURCE).Ok? then Assemble(KERNEL_SOURCE).value else Assembly([], map[])
  }

  /** The labels `install` looks up are there. */
  lemma Fields(asm: Assembly, w: WordSpec)
    requires KernelLoaded(asm)
    ensures var l := if w.CodeWord? then Lbl(Entry(w.prim)) else Lbl(ENTER);
      l in asm.labels && asm.labels[l] == FieldOf(asm, w)
  {
    KernelSited(asm);
    hide KernelLoaded, FormsAt, BlocksAt, Routine;
    if w.CodeWord? {
      RoutineSited(asm, w.prim);
    }
  }

  lemma StartFirst(asm: Assembly)
    requires KernelLoaded(asm)
    ensures Lbl(START) in asm.labels && asm.labels[Lbl(START)] == 0 && asm == Kernel()
  {
    CoreAt(asm);
    hide FormsAt;
  }

  lemma NothingKnown(words: seq<WordSpec>, es: seq<WordEntry>)
    requires words == [] && es == []
    ensures Knows(map[], words, es)
  {
  }

  lemma NoEntries(asm: Assembly, words: seq<WordSpec>)
    requires words == []
    ensures EntriesOf(asm, words) == []
  {
  }

  lemma {:induction false} ImageEndBefore(words: seq<WordSpec>, i: nat)
    requires i < |words|
    ensures ImageEnd(words[..i]) + WordSize(words[i]) <= ImageEnd(words)
    decreases |words|
  {
    var before := words[..|words| - 1];
    if i < |before| {
      ImageEndBefore(before, i);
      assert before[..i] == words[..i];
    }
  }

  /** What `build` hands out: the kernel's program, the boot thread's address and every word by name. */
  ghost predicate ImageOf(image: KernelImage, words: seq<WordSpec>) {
    && image.program == Kernel().program
    && image.bootIp == BootIp(words)
    && Knows(image.wordCfas, words, EntriesOf(Kernel(), words))
  }

  // ---- what a word's specification comes to in the dictionary ----

  /** The header of a word says what its specification says, and that the word is not smudged. */
  ghost predicate Specified(w: WordSpec, h: Header) { h.name == w.name && h.immediate == w.immediate && !h.smudge }

  lemma HeadersSpecified(asm: Assembly, words: seq<WordSpec>)
    ensures forall i :: 0 <= i < |words| ==> Specified(words[i], HeaderOf(EntriesOf(asm, words), i))
  {
    hide EntriesOf, Cfa, Link;
    forall i | 0 <= i < |words|
      ensures Specified(words[i], HeaderOf(EntriesOf(asm, words), i))
    {
      EntryInstalled(asm, words, i);
    }
  }

  /** The cells of word `i` around its code field address: link, immediate, smudge, length and name in
      front of it, the address of its routine in it, and its thread behind it. */
  lemma InstalledCells(asm: Assembly, words: seq<WordSpec>, mem: seq<int>, i: nat)
    requires Chain(mem, EntriesOf(asm, words)) && i < |words|
    ensures var cfa, n := Cfa(EntriesOf(asm, words), i), |words[i].name|;
      && n + 4 <= cfa < |mem|
      && mem[cfa - n - 4] == (if i == 0 then 0 else Cfa(EntriesOf(asm, words), i - 1) - 1 - |words[i - 1].name|)
      && mem[cfa - n - 3] == (if words[i].immediate then 1 else 0)
      && mem[cfa - n - 2] == 0
      && mem[cfa - n - 1] == n
      && (forall k :: 0 <= k < n ==> mem[cfa - n + k] == words[i].name[k] as int)
      && mem[cfa] == Address(asm, if words[i].CodeWord? then Entry(words[i].prim) else ENTER)
  {
    hide EntriesOf, End;
    var es := EntriesOf(asm, words);
    EntryInstalled(asm, words, i);
    if i > 0 {
      EntryInstalled(asm, words, i - 1);
    }
    assert EntryIn(mem, es, i);
  }

  /** Behind the code field of a colon word: for each word of the definition the code field address of the
      newest word of that name among those before it, and at the end that of `EXIT`. */
  lemma InstalledThread(asm: Assembly, words: seq<WordSpec>, mem: seq<int>, i: nat)
    requires Chain(mem, EntriesOf(asm, words)) && i < |words| && words[i].ColonWord? && Resolvable(words[..i], words[i])
    ensures var es := EntriesOf(asm, words);
      var cfa, code := Cfa(es, i), words[i].words;
      && 0 <= cfa && cfa + 1 + |code| < |mem|
      && Lookup(words[..i], "EXIT").Some? && mem[cfa + 1 + |code|] == Cfa(es, Lookup(words[..i], "EXIT").value)
      && forall j :: 0 <= j < |code| ==>
           Lookup(words[..i], code[j]).Some? && mem[cfa + 1 + j] == Cfa(es, Lookup(words[..i], code[j]).value)
  {
    hide EntriesOf, End, Lookup;
    var es := EntriesOf(asm, words);
    var items := ItemsOf(words[i].words);
    EntryInstalled(asm, words, i);
    EntriesPrefix(asm, words, i);
    assert EntryIn(mem, es, i);
    forall j | 0 <= j < |items|
      ensures Lookup(words[..i], items[j].name).Some?
      ensures mem[Cfa(es, i) + 1 + j] == Cfa(es, Lookup(words[..i], items[j].name).value)
    {
      assert items[j] in items;
      CfaPrefix(es, i, Lookup(words[..i], items[j].name).value);
      assert es[i].thread[j] == ItemCell(words[..i], EntriesOf(asm, words[..i]), items[j]);
    }
    assert items[|words[i].words|] == WordReference("EXIT");
    assert forall j :: 0 <= j < |words[i].words| ==> items[j] == WordReference(words[i].words[j]);
  }

  /** In what `build` installs, `FIND` answers the CFA that `word_cfas` has for a name, with 1 if the
      newest word of the name is specified immediate and -1 if not; two zeros for any other name. */
  lemma FindsInstalled(asm: Assembly, words: seq<WordSpec>, wordCfas: map<string, int>, name: string)
    requires Knows(wordCfas, words, EntriesOf(asm, words))
    ensures name in wordCfas <==> Lookup(words, name).Some?
    ensures Found(EntriesOf(asm, words), Codes(name))
         == if name in wordCfas then (wordCfas[name], if words[Lookup(words, name).value].immediate then 1 else -1)
            else (0, 0)
  {
    hide EntriesOf, Cfa, Found;
    var es := EntriesOf(asm, words);
    HeadersSpecified(asm, words);
    FindAgrees(es, name);
    NamedIsLookup(asm, words, name);
    assert Lookup(words, name) == Lookup(words, name);
  }

  /** The newest word of a name, in the dictionary and in the list it was built from. */
  lemma NamedIsLookup(asm: Assembly, words: seq<WordSpec>, name: string)
    ensures Named(EntriesOf(asm, words), name, |words|) == Lookup(words, name)
  {
    hide EntriesOf, Lookup, Named;
    HeadersSpecified(asm, words);
    var es := EntriesOf(asm, words);
    var named, found := Named(es, name, |words|), Lookup(words, name);
    assert forall k :: 0 <= k < |words| ==> HeaderOf(es, k).name == words[k].name && HeaderOf(es, k).name == es[k].name;
  }

  /** The dictionary describes exactly `words`: their headers, newest first, and what `FIND` answers. */
  ghost predicate Described(wordCfas: map<string, int>, words: seq<WordSpec>, es: seq<WordEntry>) {
    && |HeadersOf(es, |es|)| == |words|
    && (forall k :: 0 <= k < |words| ==> Specified(words[|words| - 1 - k], HeadersOf(es, |es|)[k]))
    && forall name: string {:trigger Lookup(words, name)} ::
         Found(es, Codes(name))
         == if name in wordCfas && Lookup(words, name).Some?
            then (wordCfas[name], if words[Lookup(words, name).value].immediate then 1 else -1)
            else (0, 0)
  }

  lemma AllDescribed(asm: Assembly, words: seq<WordSpec>, wordCfas: map<string, int>)
    requires Knows(wordCfas, words, EntriesOf(asm, words))
    ensures Described(wordCfas, words, EntriesOf(asm, words))
  {
    hide EntriesOf, Specified, Knows, Found, Lookup, HeaderOf;
    var es := EntriesOf(asm, words);
    HeadersSpecified(asm, words);
    if words != [] {
      HeadersNewestFirst(es, |es|, 0);
    }
    forall k | 0 <= k < |words|
      ensures Specified(words[|words| - 1 - k], HeadersOf(es, |es|)[k])
    {
      HeadersNewestFirst(es, |es|, k);
    }
    forall name: string
      ensures Found(es, Codes(name))
           == if name in wordCfas && Lookup(words, name).Some?
              then (wordCfas[name], if words[Lookup(words, name).value].immediate then 1 else -1)
              else (0, 0)
    {
      FindsInstalled(asm, words, wordCfas, name);
    }
  }

  /** Between the two, only the two system variables changed and the cells from the dictionary's base up to
      where `DP` stands now. */
  ghost predicate OnlyImage(mem: seq<int>, mem': seq<int>) {
    && DP_ADDR < LATEST_ADDR < |mem| == |mem'|
    && DICTIONARY_BASE <= mem'[DP_ADDR]
    && forall a {:trigger mem'[a]} ::
         0 <= a < |mem| && a != DP_ADDR && a != LATEST_ADDR && !(DICTIONARY_BASE <= a < mem'[DP_ADDR]) ==> mem'[a] == mem[a]
  }

  lemma ImageGrows(mem0: seq<int>, mem: seq<int>, mem': seq<int>)
    requires OnlyImage(mem0, mem) && LATEST_ADDR < |mem'|
    requires OnlyGrown(mem[LATEST_ADDR := mem'[LATEST_ADDR]], mem')
    ensures OnlyImage(mem0, mem')
  {
  }

  lemma CellsOnlyGrow(mem: seq<int>, mem': seq<int>)
    requires OnlyGrown(mem, mem')
    ensures OnlyGrown(mem[LATEST_ADDR := mem'[LATEST_ADDR]], mem')
  {
    assert mem[LATEST_ADDR := mem'[LATEST_ADDR]] == mem;
  }

  lemma NothingChanged(mem: seq<int>)
    requires LATEST_ADDR < |mem| && DICTIONARY_BASE <= mem[DP_ADDR]
    ensures OnlyImage(mem, mem) && OnlyGrown(mem, mem)
  {
  }

  class KernelBuilder {
    const dictionary: MemoryDictionary

    constructor (dictionary: MemoryDictionary)
      ensures this.dictionary == dictionary
    {
      this.dictionary := dictionary;
    }

    /** The thread of a colon word: `cfa_of` each of its words and `EXIT`. */
    static method CompileThread(
      wordCfas: map<string, int>, names: seq<string>, ghost before: seq<WordSpec>, ghost es: seq<WordEntry>)
      returns (r: Result<seq<int>, KernelError>)
      requires |es| == |before| && Knows(wordCfas, before, es)
      ensures r.Ok? ==> r.value == ItemCells(before, es, ItemsOf(names))
      ensures r.Ok? ==> forall item :: item in ItemsOf(names) ==> Lookup(before, item.name).Some?
      ensures r.Err? ==> r.error.NotInstalled? && FirstUnknown(before, ItemsOf(names), r.error.name)
    {
      var thread: seq<int> := [];
      ghost var items := ItemsOf(names);
      for j := 0 to |names| + 1
        invariant thread == ItemCells(before, es, items)[..j]
        invariant forall k :: 0 <= k < j ==> Lookup(before, items[k].name).Some?
      {
        var name := if j < |names| then names[j] else EXIT_WORD;
        assert items[j] == WordReference(name);
        if name !in wordCfas {
          assert Lookup(before, name).None?;
          return Err(NotInstalled(name));
        }
        assert Lookup(before, name).Some?;
        thread := thread + [wordCfas[name]];
      }
      return Ok(thread);
    }

    /** `install`: lay the word down and remember its code field address. */
    method Install(asm: Assembly, wordCfas: map<string, int>, w: WordSpec, ghost words: seq<WordSpec>, ghost i: nat)
      returns (r: Result<map<string, int>, KernelError>)
      requires dictionary.Valid() && dictionary.loose == [] && KernelLoaded(asm)
      requires i < |words| && w == words[i] && dictionary.es == EntriesOf(asm, words[..i])
      requires Knows(wordCfas, words[..i], dictionary.es)
      requires End(dictionary.es) + WordSize(w) <= dictionary.memory.Length
      modifies dictionary, dictionary.memory
      ensures dictionary.Valid()
      ensures r.Ok? <==> Resolvable(words[..i], w)
      ensures r.Ok? ==> dictionary.loose == [] && dictionary.es == EntriesOf(asm, words[..i + 1])
      ensures r.Ok? ==> Knows(r.value, words[..i + 1], dictionary.es)
      ensures r.Ok? ==> OnlyGrown(old(dictionary.memory[..])[LATEST_ADDR := dictionary.memory[LATEST_ADDR]],
                                  dictionary.memory[..])
      ensures r.Err? ==> r.error.NotInstalled? && w.ColonWord?
      ensures r.Err? ==> FirstUnknown(words[..i], ItemsOf(w.words), r.error.name)
    {
      hide Knows, End, Chain, CellsAt, KernelLoaded, EntriesOf, Cfa;
      var thread: seq<int> := [];
      if w.ColonWord? {
        var compiled := CompileThread(wordCfas, w.words, words[..i], dictionary.es);
        if compiled.Err? {
          return Err(compiled.error);
        }
        thread := compiled.value;
      }
      Fields(asm, w);
      var field := asm.labels[if w.CodeWord? then Lbl(Entry(w.prim)) else Lbl(ENTER)];
      ghost var es := dictionary.es;
      var cfa := dictionary.AppendWord(w.name, field, thread, w.immediate);
      ghost var e := EntryOf(asm, words[..i], es, w);
      assert dictionary.es == es + [e];
      EntriesNext(asm, words, i);
      KnowsNext(wordCfas, words[..i], es, w, e);
      assert words[..i + 1] == words[..i] + [w];
      return Ok(wordCfas[w.name := cfa]);
    }

    /** The first loop of `build`: every word, in order. */
    method InstallAll(asm: Assembly, words: seq<WordSpec>) returns (r: Result<map<string, int>, KernelError>)
      requires dictionary.Valid() && dictionary.es == [] && dictionary.loose == [] && KernelLoaded(asm)
      requires ImageEnd(words) <= dictionary.memory.Length
      modifies dictionary, dictionary.memory
      ensures dictionary.Valid()
      ensures r.Ok? <==> AllResolvable(words)
      ensures r.Ok? ==> dictionary.loose == [] && dictionary.es == EntriesOf(asm, words)
      ensures r.Ok? ==> Knows(r.value, words, dictionary.es)
      ensures r.Ok? ==> OnlyImage(old(dictionary.memory[..]), dictionary.memory[..])
      ensures r.Err? ==> r.error.NotInstalled? && exists i :: 0 <= i < |words| && DanglingIn(r.error.name, words, i)
    {
      hide Knows, End, Chain, CellsAt, KernelLoaded, EntriesOf, Cfa, Resolvable, Lookup, FirstUnknown, OnlyImage, OnlyGrown;
      var wordCfas: map<string, int> := map[];
      NothingChanged(dictionary.memory[..]);
      NothingKnown(words[..0], dictionary.es);
      NoEntries(asm, words[..0]);
      for i := 0 to |words|
        invariant dictionary.Valid() && dictionary.loose == []
        invariant dictionary.es == EntriesOf(asm, words[..i])
        invariant Knows(wordCfas, words[..i], dictionary.es)
        invariant OnlyImage(old(dictionary.memory[..]), dictionary.memory[..])
        invariant forall k :: 0 <= k < i ==> Resolvable(words[..k], words[k])
      {
        ImageEndIsEnd(asm, words[..i]);
        ImageEndBefore(words, i);
        ghost var before := dictionary.memory[..];
        var installed := Install(asm, wordCfas, words[i], words, i);
        if installed.Err? {
          assert DanglingIn(installed.error.name, words, i);
          return Err(installed.error);
        }
        ImageGrows(old(dictionary.memory[..]), before, dictionary.memory[..]);
        wordCfas := installed.value;
      }
      assert words[..|words|] == words;
      return Ok(wordCfas);
    }

    /** The second loop of `build`: the boot thread, cell by cell. */
    method LayBoot(wordCfas: map<string, int>, boot: seq<ThreadItem>, ghost words: seq<WordSpec>)
      returns (r: Result<(), KernelError>)
      requires dictionary.Valid() && dictionary.loose == []
      requires |dictionary.es| == |words| && Knows(wordCfas, words, dictionary.es)
      requires End(dictionary.es) + |boot| <= dictionary.memory.Length
      modifies dictionary`loose, dictionary.memory
      ensures dictionary.Valid() && dictionary.es == old(dictionary.es)
      ensures r.Ok? <==> BootResolvable(words, boot)
      ensures r.Ok? ==> dictionary.loose == ItemCells(words, dictionary.es, boot)
      ensures OnlyGrown(old(dictionary.memory[..]), dictionary.memory[..])
      ensures r.Err? ==> r.error.NotInstalled? && FirstUnknown(words, boot, r.error.name)
    {
      hide End, Chain, CellsAt, Cfa, Lookup;
      NothingChanged(dictionary.memory[..]);
      for j := 0 to |boot|
        invariant dictionary.Valid() && dictionary.es == old(dictionary.es)
        invariant dictionary.loose == ItemCells(words, dictionary.es, boot)[..j]
        invariant OnlyGrown(old(dictionary.memory[..]), dictionary.memory[..])
        invariant forall k :: 0 <= k < j && boot[k].WordReference? ==> Lookup(words, boot[k].name).Some?
      {
        var value: int;
        match boot[j] {
          case WordReference(name) =>
            assert Lookup(words, name).Some? <==> name in wordCfas;
            if name !in wordCfas {
              return Err(NotInstalled(name));
            }
            value := wordCfas[name];
          case LiteralCell(v) =>
            value := v;
        }
        var _ := dictionary.AppendCell(value);
      }
      return Ok(());
    }

    /** `build`: assemble the kernel, install every word, lay down the boot thread. */
    method Build(colon: seq<WordSpec>, boot: seq<ThreadItem>) returns (r: Result<KernelImage, KernelError>)
      requires forall w :: w in colon ==> w.ColonWord?
      requires dictionary.Valid() && dictionary.es == [] && dictionary.loose == []
      requires ImageTop(AllWords(colon), boot) <= dictionary.memory.Length
      modifies dictionary, dictionary.memory
      ensures dictionary.Valid()
      ensures r.Ok? <==> AllResolvable(AllWords(colon)) && BootResolvable(AllWords(colon), boot)
      ensures r.Err? ==> r.error.NotInstalled? && Dangling(r.error.name, AllWords(colon), boot)
      ensures r.Ok? ==> ImageOf(r.value, AllWords(colon))
      ensures r.Ok? ==> dictionary.es == EntriesOf(Kernel(), AllWords(colon))
      ensures r.Ok? ==> dictionary.loose == ItemCells(AllWords(colon), dictionary.es, boot)
      ensures r.Ok? ==> Described(r.value.wordCfas, AllWords(colon), dictionary.es)
      ensures r.Ok? ==> OnlyImage(old(dictionary.memory[..]), dictionary.memory[..])
      ensures r.Ok? ==> dictionary.memory[DP_ADDR] == ImageTop(AllWords(colon), boot)
    {
      hide Knows, End, Chain, CellsAt, EntriesOf, Cfa, AllWords, ImageEnd, AllResolvable, Lookup, Assemble, OnlyImage, OnlyGrown;
      KernelAssembles.KernelAssembled();
      var assembled := AssembleLines(KERNEL_SOURCE);
      var asm: Assembly;
      match assembled {
        case Err(e) => return Err(NotAssembled(e));
        case Ok(a) => asm := a;
      }
      StartFirst(asm);
      if Lbl(START) !in asm.labels || asm.labels[Lbl(START)] != 0 {
        return Err(StartMisplaced);
      }
      var words := AllWords(colon);
      var installed := InstallAll(asm, words);
      if installed.Err? {
        return Err(installed.error);
      }
      ImageEndIsEnd(asm, words);
      var bootIp := dictionary.Here();
      ghost var before := dictionary.memory[..];
      var laid := LayBoot(installed.value, boot, words);
      if laid.Err? {
        return Err(laid.error);
      }
      AllDescribed(asm, words, installed.value);
      CellsOnlyGrow(before, dictionary.memory[..]);
      ImageGrows(old(dictionary.memory[..]), before, dictionary.memory[..]);
      return Ok(KernelImage(asm.program, installed.value, bootIp));
    }
  }
}
