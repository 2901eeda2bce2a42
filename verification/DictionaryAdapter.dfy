/** The dictionary as it is kept in memory: counted strings, headers and threads written through
    `DP`, words found through the `LATEST` chain (`adapters/dictionary.py`, `counted_string.py`). */
module DictionaryAdapter {
  import opened Wrappers
  import opened Layout
  import opened DictionaryShape
  import opened Words

  /** `DictionaryHeaderDto`. */
  datatype Header = Header(name: string, link: int, immediate: bool, smudge: bool, cfa: int)

  function HeaderOf(es: seq<WordEntry>, i: nat): Header
    requires i < |es|
  {
    Header(es[i].name, Link(es, i), es[i].immediate != 0, es[i].smudge != 0, Cfa(es, i))
  }

  /** The headers of the first `n` words, newest first. */
  function HeadersOf(es: seq<WordEntry>, n: nat): seq<Header>
    requires n <= |es|
  {
    if n == 0 then [] else [HeaderOf(es, n - 1)] + HeadersOf(es, n - 1)
  }

  /** The newest of the first `n` words with this name. */
  function Named(es: seq<WordEntry>, name: string, n: nat): (r: Option<nat>)
    requires n <= |es|
    ensures r.Some? ==> r.value < n && es[r.value].name == name
    ensures r.Some? ==> forall k :: r.value < k < n ==> es[k].name != name
    ensures r.None? ==> forall k :: 0 <= k < n ==> es[k].name != name
  {
    if n == 0 then None else if es[n - 1].name == name then Some(n - 1) else Named(es, name, n - 1)
  }

  lemma {:induction false} HeadersNewestFirst(es: seq<WordEntry>, n: nat, k: nat)
    requires k < n <= |es|
    ensures |HeadersOf(es, n)| == n && HeadersOf(es, n)[k] == HeaderOf(es, n - 1 - k)
  {
    hide HeaderOf;
    if k > 0 {
      HeadersNewestFirst(es, n - 1, k - 1);
    } else if n > 1 {
      HeadersNewestFirst(es, n - 1, 0);
    }
  }

  /** The first visible header with this name. */
  function FirstVisible(headers: seq<Header>, name: string): Option<Header> {
    if headers == [] then None
    else if !headers[0].smudge && headers[0].name == name then Some(headers[0])
    else FirstVisible(headers[1..], name)
  }

  lemma {:induction false} NewestIsFirst(es: seq<WordEntry>, name: string, n: nat)
    requires n <= |es|
    ensures FirstVisible(HeadersOf(es, n), name)
         == match Newest(es, Codes(name), n)
            case None => None
            case Some(i) => if i < |es| then Some(HeaderOf(es, i)) else None
    ensures Newest(es, Codes(name), n).Some? ==> Newest(es, Codes(name), n).value < n
  {
    hide Cfa, Link;
    if n > 0 {
      if Codes(es[n - 1].name) == Codes(name) {
        CodesInjective(es[n - 1].name, name);
      }
      NewestIsFirst(es, name, n - 1);
    }
  }

  /** `FIND`'s answer is read off `headers`: the code field and immediate flag of the first header that
      is visible and has the name, or two zeros. */
  lemma FoundIsFirst(es: seq<WordEntry>, name: string)
    ensures Found(es, Codes(name))
         == match FirstVisible(HeadersOf(es, |es|), name)
            case None => (0, 0)
            case Some(h) => (h.cfa, if h.immediate then 1 else -1)
  {
    hide Cfa, Link, Newest, FirstVisible;
    NewestIsFirst(es, name, |es|);
  }

  lemma CodesInjective(s: string, t: string)
    requires Codes(s) == Codes(t)
    ensures s == t
  {
    forall i | 0 <= i < |s|
      ensures s[i] == t[i]
    {
      assert Codes(s)[i] == Codes(t)[i];
    }
  }

  /** Distinct words have distinct code field addresses, none of them zero. */
  lemma CfaAscends(es: seq<WordEntry>, i: nat, j: nat)
    requires i < j < |es|
    ensures 0 < Cfa(es, i) < Cfa(es, j)
  {
    EndNext(es, i);
    EndMonotonic(es, i + 1, j);
    EndAtLeast(es[..i]);
  }

  lemma CfaPositive(es: seq<WordEntry>, i: nat)
    requires i < |es|
    ensures 0 < Cfa(es, i)
  {
    EndAtLeast(es[..i]);
  }

  lemma {:induction false} NewestBelowNamed(es: seq<WordEntry>, name: string, n: nat)
    requires n <= |es|
    ensures var found, named := Newest(es, Codes(name), n), Named(es, name, n);
      && (found.Some? ==> found.value < n && es[found.value].smudge == 0 && named.Some? && found.value <= named.value)
      && (named.Some? && es[named.value].smudge == 0 ==> found == named)
  {
    if n > 0 {
      if Codes(es[n - 1].name) == Codes(name) {
        CodesInjective(es[n - 1].name, name);
      }
      NewestBelowNamed(es, name, n - 1);
    }
  }

  /** `FIND` against the host's `find`, for every dictionary and name: with no such word both find
      nothing; otherwise they name the same code field exactly when the newest word of that name is
      visible, and then the flag is 1 for an immediate word and -1 for a normal one. */
  lemma FindAgrees(es: seq<WordEntry>, name: string)
    ensures var named, found := Named(es, name, |es|), Found(es, Codes(name));
      && (named.None? ==> found == (0, 0))
      && (named.Some? ==>
            var header := HeaderOf(es, named.value);
            && (found.0 == header.cfa <==> !header.smudge)
            && (!header.smudge ==> found.1 == if header.immediate then 1 else -1))
  {
    hide Newest, Cfa;
    NewestBelowNamed(es, name, |es|);
    var named, newest := Named(es, name, |es|), Newest(es, Codes(name), |es|);
    if named.Some? {
      CfaPositive(es, named.value);
      if newest.Some? && newest.value < named.value {
        CfaAscends(es, newest.value, named.value);
      }
    }
  }

  // ---- counted strings ----

  /** The counted string at `a` is `text`. */
  predicate CountedAt(mem: seq<int>, a: int, text: string) {
    && 0 <= a && a + 1 + |text| <= |mem|
    && mem[a] == |text|
    && forall k :: 0 <= k < |text| ==> mem[a + 1 + k] == text[k] as int
  }

  /** `MemoryCountedStringAdapter.read`. */
  method ReadCounted(memory: array<int>, address: int, ghost text: string) returns (r: string)
    requires CountedAt(memory[..], address, text)
    ensures r == text
  {
    var length := memory[address];
    r := "";
    for i := 0 to length
      invariant r == text[..i]
    {
      assert memory[..][address + 1 + i] == text[i] as int;
      r := r + [memory[address + 1 + i] as char];
    }
  }

  /** `MemoryCountedStringAdapter.write`. */
  method WriteCounted(memory: array<int>, address: int, text: string) returns (past: int)
    requires 0 <= address && address + 1 + |text| <= memory.Length
    modifies memory
    ensures past == address + 1 + |text|
    ensures memory[..] == WithCounted(old(memory[..]), address, Codes(text))
    ensures CountedAt(memory[..], address, text)
  {
    ghost var before := memory[..];
    memory[address] := |text|;
    for i := 0 to |text|
      invariant memory[address] == |text|
      invariant forall k :: 0 <= k < i ==> memory[address + 1 + k] == text[k] as int
      invariant forall a :: 0 <= a < memory.Length && !(address <= a < address + 1 + i) ==> memory[a] == before[a]
    {
      memory[address + 1 + i] := text[i] as int;
    }
    assert memory[..] == before[..address] + [|text|] + Codes(text) + before[address + 1 + |text|..];
    return address + 1 + |text|;
  }

  // ---- loose cells ----

  lemma CellsSplit(mem: seq<int>, at: int, xs: seq<int>, ys: seq<int>)
    requires CellsAt(mem, at, xs + ys)
    ensures CellsAt(mem, at, xs) && CellsAt(mem, at + |xs|, ys)
  {
    assert mem[at..at + |xs|] == (xs + ys)[..|xs|];
    assert mem[at + |xs|..at + |xs| + |ys|] == (xs + ys)[|xs|..];
  }

  lemma CellsFrame(mem: seq<int>, mem': seq<int>, at: int, cells: seq<int>)
    requires CellsAt(mem, at, cells) && |mem'| == |mem|
    requires forall a :: at <= a < at + |cells| ==> mem'[a] == mem[a]
    ensures CellsAt(mem', at, cells)
  {
    assert mem'[at..at + |cells|] == mem[at..at + |cells|];
  }

  /** Cells written right after others make one longer run of cells. */
  lemma CellsGrow(mem: seq<int>, mem': seq<int>, at: int, xs: seq<int>, ys: seq<int>)
    requires CellsAt(mem, at, xs) && |mem'| == |mem|
    requires forall a :: at <= a < at + |xs| ==> mem'[a] == mem[a]
    requires at + |xs| + |ys| <= |mem| && forall k :: 0 <= k < |ys| ==> mem'[at + |xs| + k] == ys[k]
    ensures CellsAt(mem', at, xs + ys)
  {
    CellsFrame(mem, mem', at, xs);
    var n := |xs| + |ys|;
    forall k | 0 <= k < n
      ensures mem'[at..at + n][k] == (xs + ys)[k]
    {
      assert k < |xs| ==> mem'[at..at + |xs|][k] == xs[k];
      assert k >= |xs| ==> mem'[at + |xs| + (k - |xs|)] == ys[k - |xs|];
    }
    assert mem'[at..at + n] == xs + ys;
  }

  lemma ChainEntry(mem: seq<int>, es: seq<WordEntry>, i: nat)
    requires Chain(mem, es) && i < |es|
    ensures EntryIn(mem, es, i)
  {
  }

  lemma EndBefore(es: seq<WordEntry>, i: nat)
    requires i < |es|
    ensures DICTIONARY_BASE <= End(es[..i]) && NameField(es, i) == End(es[..i]) + |es[i].before| + 3
    ensures NameField(es, i) + 2 + |es[i].name| + |es[i].thread| <= End(es)
  {
    WithinEnd(es, i);
  }

  /** A word written past the others, and each of those, in the longer list. */
  lemma AppendEntry(mem: seq<int>, mem': seq<int>, es: seq<WordEntry>, e: WordEntry, i: nat)
    requires Chain(mem, es) && |mem'| == |mem| && i <= |es|
    requires forall a :: DICTIONARY_BASE <= a < End(es) ==> mem'[a] == mem[a]
    requires CellsAt(mem', End(es), e.before) && EntryAt(mem', End(es) + |e.before| + 3, e, Link(es, |es|))
    ensures EntryIn(mem', es + [e], i)
  {
    hide Chain, End, NameField, Link, EntryAt, CellsAt;
    EntriesBefore(es, e, i);
    assert es[..|es|] == es;
    if i < |es| {
      ChainEntry(mem, es, i);
      EndBefore(es, i);
      CellsFrame(mem, mem', End(es[..i]), es[i].before);
      EntryFrame(mem, mem', NameField(es, i), es[i], Link(es, i), End(es));
    }
  }

  /** A word written past the others and linked to them is the newest of the chain. */
  lemma ChainAppend(mem: seq<int>, mem': seq<int>, es: seq<WordEntry>, e: WordEntry)
    requires Chain(mem, es) && |mem'| == |mem|
    requires forall a :: DICTIONARY_BASE <= a < End(es) ==> mem'[a] == mem[a]
    requires End(es) + EntrySize(e) <= |mem| && CellsAt(mem', End(es), e.before)
    requires EntryAt(mem', End(es) + |e.before| + 3, e, Link(es, |es|))
    requires mem'[LATEST_ADDR] == End(es) + |e.before| + 3
    ensures Chain(mem', es + [e])
  {
    hide End, EntryAt, NameField, Link, CellsAt;
    var es' := es + [e];
    EndAppend(es, e);
    NewestLink(es, e);
    forall i | 0 <= i < |es'|
      ensures EntryIn(mem', es', i)
    {
      AppendEntry(mem, mem', es, e, i);
    }
  }

  lemma NewestLink(es: seq<WordEntry>, e: WordEntry)
    ensures Link(es + [e], |es| + 1) == End(es) + |e.before| + 3
  {
    hide End;
    assert (es + [e])[..|es|] == es;
  }

  lemma EntriesBefore(es: seq<WordEntry>, e: WordEntry, i: nat)
    requires i <= |es|
    ensures (es + [e])[..i] == es[..i] && Link(es + [e], i) == Link(es, i)
    ensures NameField(es + [e], i) == if i < |es| then NameField(es, i) else End(es) + |e.before| + 3
  {
    hide End;
    assert (es + [e])[..i] == es[..i];
    assert i == |es| ==> es[..i] == es;
    if i > 0 {
      assert (es + [e])[..i - 1] == es[..i - 1];
    }
  }

  lemma EntryFrame(mem: seq<int>, mem': seq<int>, nf: int, e: WordEntry, link: int, end: int)
    requires EntryAt(mem, nf, e, link) && |mem'| == |mem|
    requires DICTIONARY_BASE + 3 <= nf && nf + 2 + |e.name| + |e.thread| <= end
    requires forall a :: DICTIONARY_BASE <= a < end && a < |mem| ==> mem'[a] == mem[a]
    ensures EntryAt(mem', nf, e, link)
  {
  }

  /** A chain only depends on `LATEST` and on its own cells. */
  lemma ChainFrame(mem: seq<int>, mem': seq<int>, es: seq<WordEntry>)
    requires Chain(mem, es) && |mem'| == |mem| && mem'[LATEST_ADDR] == mem[LATEST_ADDR]
    requires forall a :: DICTIONARY_BASE <= a < End(es) ==> mem'[a] == mem[a]
    ensures Chain(mem', es)
  {
    hide End, EntryAt, NameField, Link, CellsAt;
    forall i | 0 <= i < |es|
      ensures EntryIn(mem', es, i)
    {
      ChainEntry(mem, es, i);
      EndBefore(es, i);
      CellsFrame(mem, mem', End(es[..i]), es[i].before);
      EntryFrame(mem, mem', NameField(es, i), es[i], Link(es, i), End(es));
    }
  }

  /** The cells a word's own part is written as: link, immediate, smudge, name, code field, thread. */
  function EntryCells(e: WordEntry, link: int): (cells: seq<int>)
    ensures |cells| == EntrySize(e) - |e.before|
  {
    [link, e.immediate, e.smudge, |e.name|] + Codes(e.name) + [e.field] + e.thread
  }

  lemma CellsEntry(mem: seq<int>, at: int, e: WordEntry, link: int)
    requires CellsAt(mem, at, EntryCells(e, link))
    ensures EntryAt(mem, at + 3, e, link)
  {
    var cells := EntryCells(e, link);
    assert forall k :: 0 <= k < |cells| ==> mem[at + k] == cells[k];
    forall k | 0 <= k < |e.name|
      ensures mem[at + 4 + k] == e.name[k] as int
    {
      assert cells[4 + k] == Codes(e.name)[k];
    }
    forall j | 0 <= j < |e.thread|
      ensures mem[at + 5 + |e.name| + j] == e.thread[j]
    {
      assert cells[5 + |e.name| + j] == e.thread[j];
    }
    assert mem[at + 4 + |e.name|] == cells[4 + |e.name|] == e.field;
    assert cells[0] == link && cells[1] == e.immediate && cells[2] == e.smudge && cells[3] == |e.name|;
    assert mem[at] == cells[0] && mem[at + 1] == cells[1] && mem[at + 2] == cells[2] && mem[at + 3] == cells[3];
  }

  /** Cells laid down as a word become one when `LATEST` is pointed at its name field. */
  lemma CellsBecomeWord(mem: seq<int>, mem': seq<int>, es: seq<WordEntry>, e: WordEntry)
    requires Chain(mem, es) && CellsAt(mem, End(es), e.before + EntryCells(e, Link(es, |es|)))
    requires DICTIONARY_BASE <= |mem| == |mem'| && mem'[LATEST_ADDR] == End(es) + |e.before| + 3
    requires forall a :: DICTIONARY_BASE <= a < |mem| ==> mem'[a] == mem[a]
    ensures Chain(mem', es + [e])
    ensures End(es + [e]) == End(es) + EntrySize(e) <= |mem|
    ensures NameField(es + [e], |es|) == End(es) + |e.before| + 3
  {
    hide EntryAt, Link, EntryCells, End, NameField, Chain, CellsAt;
    var cells := EntryCells(e, Link(es, |es|));
    EndAtLeast(es);
    CellsSplit(mem, End(es), e.before, cells);
    CellsWithin(mem, End(es), e.before);
    CellsWithin(mem, End(es) + |e.before|, cells);
    CellsFrame(mem, mem', End(es), e.before);
    CellsFrame(mem, mem', End(es) + |e.before|, cells);
    CellsEntry(mem', End(es) + |e.before|, e, Link(es, |es|));
    ChainAppend(mem, mem', es, e);
    EndAppend(es, e);
    EntriesBefore(es, e, |es|);
  }

  lemma NoCells(mem: seq<int>, es: seq<WordEntry>)
    requires DICTIONARY_BASE <= End(es) <= |mem|
    ensures CellsAt(mem, End(es), [])
  {
  }

  lemma CellsWithin(mem: seq<int>, at: int, cells: seq<int>)
    requires CellsAt(mem, at, cells)
    ensures at + |cells| <= |mem|
  {
  }

  lemma EndAppend(es: seq<WordEntry>, e: WordEntry)
    ensures End(es + [e]) == End(es) + EntrySize(e)
  {
    assert (es + [e])[..|es|] == es;
  }

  /** After appending a word, `headers` yields it and then exactly what it yielded before. */
  lemma AppendedHeaders(es: seq<WordEntry>, e: WordEntry)
    ensures HeadersOf(es + [e], |es| + 1) == [HeaderOf(es + [e], |es|)] + HeadersOf(es, |es|)
  {
    hide HeaderOf;
    SameHeaders(es, e, |es|);
  }

  lemma {:induction false} SameHeaders(es: seq<WordEntry>, e: WordEntry, n: nat)
    requires n <= |es|
    ensures HeadersOf(es + [e], n) == HeadersOf(es, n)
  {
    if n > 0 {
      SameHeaders(es, e, n - 1);
      EntriesBefore(es, e, n - 1);
      hide End, NameField, Link;
      assert HeaderOf(es + [e], n - 1) == HeaderOf(es, n - 1);
    }
  }

  /** From `mem` to `mem'`, `DP` has moved up and only the cells it moved over are new. */
  ghost predicate OnlyGrown(mem: seq<int>, mem': seq<int>) {
    && LATEST_ADDR < |mem| == |mem'|
    && DICTIONARY_BASE <= mem[DP_ADDR] <= mem'[DP_ADDR]
    && forall a :: 0 <= a < |mem| && a != DP_ADDR && !(mem[DP_ADDR] <= a < mem'[DP_ADDR]) ==> mem'[a] == mem[a]
  }

  /** Only the pointer to no word is zero. */
  lemma LinkZero(es: seq<WordEntry>, i: nat)
    requires i <= |es|
    ensures Link(es, i) == 0 <==> i == 0
  {
    if i > 0 {
      EndAtLeast(es[..i - 1]);
    }
  }

  lemma ChainLatest(mem: seq<int>, es: seq<WordEntry>)
    requires Chain(mem, es)
    ensures mem[LATEST_ADDR] == Link(es, |es|)
  {
  }

  class MemoryDictionary {
    const memory: array<int>

    /** The words installed so far, and the cells appended after the newest of them. */
    ghost var es: seq<WordEntry>
    ghost var loose: seq<int>

    ghost predicate Valid()
      reads this, memory
    {
      && DICTIONARY_BASE <= memory.Length
      && Chain(memory[..], es)
      && DICTIONARY_BASE <= End(es) + |loose| == memory[DP_ADDR] <= memory.Length
      && CellsAt(memory[..], End(es), loose)
    }

    constructor (memory: array<int>)
      requires DICTIONARY_BASE <= memory.Length
      modifies memory
      ensures Valid() && this.memory == memory && es == [] && loose == []
      ensures memory[..] == old(memory[..])[DP_ADDR := DICTIONARY_BASE][LATEST_ADDR := 0]
    {
      this.memory := memory;
      es, loose := [], [];
      new;
      memory[DP_ADDR] := DICTIONARY_BASE;
      memory[LATEST_ADDR] := 0;
    }

    /** `here`. */
    method Here() returns (address: int)
      requires Valid()
      ensures address == End(es) + |loose|
    {
      return memory[DP_ADDR];
    }

    method AppendCell(value: int) returns (address: int)
      requires Valid() && End(es) + |loose| < memory.Length
      modifies this`loose, memory
      ensures Valid() && es == old(es) && loose == old(loose) + [value]
      ensures address == old(memory[DP_ADDR])
      ensures memory[..] == old(memory[..])[address := value][DP_ADDR := address + 1]
    {
      hide End, Chain, CellsAt;
      EndAtLeast(es);
      ghost var before := memory[..];
      address := memory[DP_ADDR];
      memory[address] := value;
      memory[DP_ADDR] := address + 1;
      CellsGrow(before, memory[..], End(es), loose, [value]);
      loose := loose + [value];
      ChainFrame(before, memory[..], es);
    }

    /** The name, as a counted string at `here`. */
    method AppendName(name: string)
      requires Valid() && End(es) + |loose| + 1 + |name| <= memory.Length
      modifies this`loose, memory
      ensures Valid() && es == old(es) && loose == old(loose) + ([|name|] + Codes(name))
      ensures OnlyGrown(old(memory[..]), memory[..])
    {
      hide End, Chain, CellsAt;
      EndAtLeast(es);
      ghost var before := memory[..];
      var here := memory[DP_ADDR];
      var past := WriteCounted(memory, here, name);
      memory[DP_ADDR] := past;
      CellsGrow(before, memory[..], End(es), loose, [|name|] + Codes(name));
      loose := loose + ([|name|] + Codes(name));
      ChainFrame(before, memory[..], es);
    }

    /** The cells of a thread, one after the other. */
    method AppendThread(thread: seq<int>)
      requires Valid() && End(es) + |loose| + |thread| <= memory.Length
      modifies this`loose, memory
      ensures Valid() && es == old(es) && loose == old(loose) + thread
      ensures OnlyGrown(old(memory[..]), memory[..])
    {
      hide End, Chain, CellsAt;
      for i := 0 to |thread|
        invariant Valid() && es == old(es) && loose == old(loose) + thread[..i]
        invariant OnlyGrown(old(memory[..]), memory[..])
      {
        var _ := AppendCell(thread[i]);
      }
    }

    /** The header cells of `append_word`: link, immediate, smudge and name. */
    method AppendHeader(name: string, immediate: bool) returns (nameField: int)
      requires Valid() && End(es) + |loose| + 4 + |name| <= memory.Length
      modifies this`loose, memory
      ensures Valid() && es == old(es) && nameField == End(es) + |old(loose)| + 3
      ensures loose == old(loose) + ([old(memory[LATEST_ADDR]), if immediate then 1 else 0, 0, |name|] + Codes(name))
      ensures OnlyGrown(old(memory[..]), memory[..])
    {
      hide End, Chain, CellsAt;
      var _ := AppendCell(memory[LATEST_ADDR]);
      var _ := AppendCell(if immediate then 1 else 0);
      var _ := AppendCell(0);
      nameField := Here();
      AppendName(name);
    }

    /** `self._vars.latest = name_field`: the cells appended last are a word from here on, and those
        before them its raw cells. */
    method Publish(nameField: int, ghost e: WordEntry)
      requires Valid() && loose == e.before + EntryCells(e, memory[LATEST_ADDR])
      requires nameField == End(es) + |e.before| + 3
      modifies this`es, this`loose, memory
      ensures Valid() && loose == [] && es == old(es) + [e]
      ensures Cfa(es, |es| - 1) == nameField + 1 + |e.name|
      ensures memory[..] == old(memory[..])[LATEST_ADDR := nameField]
    {
      hide End, Chain, CellsAt, EntryAt, NameField, Link, EntryCells;
      ChainLatest(memory[..], es);
      ghost var mem := memory[..];
      memory[LATEST_ADDR] := nameField;
      CellsBecomeWord(mem, memory[..], es, e);
      es, loose := es + [e], [];
      NoCells(memory[..], es);
    }

    /** `append_word`: header, code field and thread; everything else in memory stays as it was. */
    method AppendWord(name: string, field: int, thread: seq<int>, immediate: bool) returns (cfa: int)
      requires Valid() && End(es) + |loose| + 5 + |name| + |thread| <= memory.Length
      modifies this, memory
      ensures Valid() && loose == []
      ensures es == old(es) + [WordEntry(old(loose), name, if immediate then 1 else 0, 0, field, thread)]
      ensures cfa == Cfa(es, |es| - 1)
      ensures memory[DP_ADDR] == old(memory[DP_ADDR]) + 5 + |name| + |thread|
      ensures OnlyGrown(old(memory[..])[LATEST_ADDR := memory[LATEST_ADDR]], memory[..])
    {
      hide End, Chain, CellsAt, EntryAt, NameField, Link;
      ghost var e := WordEntry(loose, name, if immediate then 1 else 0, 0, field, thread);
      ghost var latest := memory[LATEST_ADDR];
      var nameField := AppendHeader(name, immediate);
      cfa := AppendCell(field);
      AppendThread(thread);
      assert loose == old(loose) + EntryCells(e, latest);
      Publish(nameField, e);
    }

    /** `headers`, all of them: follow the links from `LATEST`. */
    method Headers() returns (headers: seq<Header>)
      requires Valid()
      ensures headers == HeadersOf(es, |es|)
    {
      hide End, Chain, CellsAt, NameField;
      headers := [];
      ChainLatest(memory[..], es);
      var nameField := memory[LATEST_ADDR];
      ghost var i: nat := |es|;
      while nameField != 0
        invariant i <= |es| && nameField == Link(es, i)
        invariant headers + HeadersOf(es, i) == HeadersOf(es, |es|)
        decreases i
      {
        LinkZero(es, i);
        i := i - 1;
        var header := ReadHeader(nameField, i);
        headers := headers + [header];
        nameField := header.link;
      }
      LinkZero(es, i);
    }

    /** `_read_header`. */
    method ReadHeader(nameField: int, ghost i: nat) returns (header: Header)
      requires Valid() && i < |es| && nameField == NameField(es, i)
      ensures header == HeaderOf(es, i)
    {
      hide End, Chain, CellsAt, NameField, Link;
      ChainEntry(memory[..], es, i);
      var name := ReadCounted(memory, nameField, es[i].name);
      return Header(name, memory[nameField - 3], memory[nameField - 2] != 0, memory[nameField - 1] != 0,
                    nameField + 1 + |name|);
    }

    /** `find`: the newest header with this name. */
    method Find(name: string) returns (r: Option<Header>)
      requires Valid()
      ensures r == match Named(es, name, |es|) case None => None case Some(i) => Some(HeaderOf(es, i))
    {
      hide End, Chain, CellsAt, NameField;
      ChainLatest(memory[..], es);
      var nameField := memory[LATEST_ADDR];
      ghost var i: nat := |es|;
      while nameField != 0
        invariant i <= |es| && nameField == Link(es, i)
        invariant Named(es, name, |es|) == Named(es, name, i)
        decreases i
      {
        LinkZero(es, i);
        i := i - 1;
        var header := ReadHeader(nameField, i);
        if header.name == name {
          return Some(header);
        }
        nameField := header.link;
      }
      LinkZero(es, i);
      return None;
    }
  }
}
