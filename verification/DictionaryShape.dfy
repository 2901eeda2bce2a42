/** The dictionary as a list of words, and the cells that list occupies (`HeaderField`, `layout.py`). */
module DictionaryShape {
  import opened Layout

  /** One installed word, behind the raw cells `before` that were appended since the word before it. The
      flag cells are zero or not; `thread` is empty for a CODE word. */
  datatype WordEntry = WordEntry(
    before: seq<int>, name: string, immediate: int, smudge: int, field: int, thread: seq<int>)

  function Codes(text: string): (codes: seq<int>)
    ensures |codes| == |text|
    ensures forall i :: 0 <= i < |text| ==> codes[i] == text[i] as int
  {
    seq(|text|, i requires 0 <= i < |text| => text[i] as int)
  }

  /** Raw cells, then link, immediate, smudge, name length, name, code field, thread. */
  function EntrySize(e: WordEntry): nat { |e.before| + 5 + |e.name| + |e.thread| }

  /** The first cell past `es`: where the next word would go. */
  function End(es: seq<WordEntry>): int {
    if es == [] then DICTIONARY_BASE else End(es[..|es| - 1]) + EntrySize(es[|es| - 1])
  }

  /** The name field of word `i`, which `LATEST` and the links point to. */
  function NameField(es: seq<WordEntry>, i: nat): int
    requires i < |es|
  {
    End(es[..i]) + |es[i].before| + 3
  }

  /** The code field address of word `i`. */
  function Cfa(es: seq<WordEntry>, i: nat): int
    requires i < |es|
  {
    NameField(es, i) + 1 + |es[i].name|
  }

  /** What a pointer to the newest of the first `i` words holds: a name field, or zero for none. */
  function Link(es: seq<WordEntry>, i: nat): int
    requires i <= |es|
  {
    if i == 0 then 0 else NameField(es, i - 1)
  }

  /** The cells of `e`, whose name field is at `nf` and whose predecessor is at `link`. */
  ghost predicate EntryAt(mem: seq<int>, nf: int, e: WordEntry, link: int) {
    && 3 <= nf && nf + 2 + |e.name| + |e.thread| <= |mem|
    && mem[nf - 3] == link
    && mem[nf - 2] == e.immediate
    && mem[nf - 1] == e.smudge
    && mem[nf] == |e.name|
    && (forall k :: 0 <= k < |e.name| ==> mem[nf + 1 + k] == e.name[k] as int)
    && mem[nf + 1 + |e.name|] == e.field
    && (forall j :: 0 <= j < |e.thread| ==> mem[nf + 2 + |e.name| + j] == e.thread[j])
  }

  /** The cells from `at` on are `cells`. */
  ghost predicate CellsAt(mem: seq<int>, at: int, cells: seq<int>) {
    0 <= at && at + |cells| <= |mem| && mem[at..at + |cells|] == cells
  }

  /** Word `i` is where the words before it end, linked to the one before it. */
  ghost predicate EntryIn(mem: seq<int>, es: seq<WordEntry>, i: nat)
    requires i < |es|
  {
    CellsAt(mem, End(es[..i]), es[i].before) && EntryAt(mem, NameField(es, i), es[i], Link(es, i))
  }

  /** The dictionary block holds exactly the words `es`, linked newest first. */
  ghost predicate Chain(mem: seq<int>, es: seq<WordEntry>) {
    && LATEST_ADDR < DICTIONARY_BASE <= End(es) <= |mem|
    && mem[LATEST_ADDR] == Link(es, |es|)
    && forall i :: 0 <= i < |es| ==> EntryIn(mem, es, i)
  }

  lemma EndAtLeast(es: seq<WordEntry>)
    ensures End(es) >= DICTIONARY_BASE + 5 * |es|
  {
  }

  lemma {:induction false} EndMonotonic(es: seq<WordEntry>, i: nat, j: nat)
    requires i <= j <= |es|
    ensures End(es[..i]) + 5 * (j - i) <= End(es[..j])
    decreases j
  {
    if i < j {
      assert es[..j][..j - 1] == es[..j - 1];
      EndMonotonic(es, i, j - 1);
    }
  }

  /** Consecutive words share no cell. */
  lemma EndNext(es: seq<WordEntry>, i: nat)
    requires i < |es|
    ensures End(es[..i + 1]) == End(es[..i]) + EntrySize(es[i]) == Cfa(es, i) + 1 + |es[i].thread|
  {
    assert es[..i + 1][..i] == es[..i];
  }

  /** Every word lies between the system variables and the end. */
  lemma WithinEnd(es: seq<WordEntry>, i: nat)
    requires i < |es|
    ensures DICTIONARY_BASE <= End(es[..i]) && End(es[..i]) + |es[i].before| + 3 == NameField(es, i)
    ensures Cfa(es, i) + 1 + |es[i].thread| <= End(es)
  {
    EndAtLeast(es[..i]);
    EndNext(es, i);
    EndMonotonic(es, i + 1, |es|);
    assert es[..|es|] == es;
  }
}
