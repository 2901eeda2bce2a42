/** The kernel words that read text, called by their names, and every way a kernel word can fail. */
module KernelTexts {
  import opened Wrappers
  import opened Isa
  import opened Cpu
  import opened Layout
  import opened Stacks
  import opened AbstractMachine
  import opened KernelSource
  import opened KernelLayout
  import opened DictionaryShape
  import opened Words
  import opened Primitives
  import opened Troubles
  import opened Evaluation
  import opened Building
  import opened Correctness
  import opened Separation
  import opened EndToEnd
  import opened KernelBuilder
  import opened Images
  import opened NameTable
  import opened KernelWords
  import opened RoundTrip
  import KernelShape
  import Agreement
  import KernelAssembles
  import M = Machine

  /** The cell at `a` holds the length of `text`, the cells behind it the characters. */
  ghost predicate HoldsText(m: M.State, a: int, text: seq<int>)
    requires M.Sound(m)
  {
    0 <= a && a + 1 + |text| <= 2048 && m.mem[a] == |text| && m.mem[a + 1..a + 1 + |text|] == text
  }

  lemma TextHeld(m: M.State, a: int, text: seq<int>)
    requires M.Sound(m) && HoldsText(m, a, text)
    ensures var low := m.mem[..DICTIONARY_SIZE]; Counted(low, a) && CountedText(low, a) == text
  {
    var low := m.mem[..DICTIONARY_SIZE];
    assert DICTIONARY_SIZE == 2048 && low[a] == m.mem[a];
    Sliced(m.mem, a + 1, a + 1 + |text|);
  }

  lemma Sliced(mem: seq<int>, lo: nat, hi: nat)
    requires lo <= hi <= 2048 <= |mem|
    ensures mem[..2048][lo..hi] == mem[lo..hi]
  {
  }

  // ---- `NUMBER` ----

  /** `n` printed with any number of zeros in front of its digits. */
  function Padded(k: nat, n: int): seq<int> {
    if n < 0 then [45] + (Repeat(48, k) + Digits(-n)) else Repeat(48, k) + Digits(n)
  }

  lemma {:induction false} ZerosRead(k: nat)
    ensures AllDigits(Repeat(48, k)) && DigitsValue(Repeat(48, k)) == 0
  {
    if k > 0 {
      ZerosRead(k - 1);
      RepeatEnds(48, k - 1);
      var s := Repeat(48, k);
      assert s[..|s| - 1] == Repeat(48, k - 1);
    }
  }

  lemma {:induction false} RepeatEnds(c: int, k: nat)
    ensures [c] + Repeat(c, k) == Repeat(c, k) + [c] && |Repeat(c, k)| == k
  {
    if k > 0 {
      RepeatEnds(c, k - 1);
    }
  }

  lemma {:induction false} ZerosInFront(k: nat, s: seq<int>)
    requires AllDigits(s)
    ensures AllDigits(Repeat(48, k) + s) && DigitsValue(Repeat(48, k) + s) == DigitsValue(s)
  {
    ZerosRead(k);
    if s == [] {
      assert Repeat(48, k) + s == Repeat(48, k);
    } else {
      var front := s[..|s| - 1];
      ZerosInFront(k, front);
      assert (Repeat(48, k) + s)[..|Repeat(48, k) + s| - 1] == Repeat(48, k) + front;
    }
  }

  lemma PaddedRead(k: nat, n: int)
    ensures ParseNumber(Padded(k, n)) == Some(n)
  {
    hide Digits, DigitsValue, Repeat;
    var digits := Digits(if n < 0 then -n else n);
    DigitsRead(if n < 0 then -n else n);
    ZerosInFront(k, digits);
    var s := Repeat(48, k) + digits;
    if n < 0 {
      assert Padded(k, n)[1..] == s;
    } else {
      assert IsDigit(s[0]);
    }
  }

  /** Nothing, a lone `-`, or a character that is neither a digit nor a `-` in front. */
  ghost predicate NotANumber(text: seq<int>) {
    text == [] || text == [45] || exists i :: 0 <= i < |text| && !(48 <= text[i] <= 57) && (i > 0 || text[i] != 45)
  }

  lemma NotANumberRead(text: seq<int>)
    requires NotANumber(text)
    ensures ParseNumber(text) == None
  {
    hide DigitsValue;
    if text != [] && text != [45] {
      var i :| 0 <= i < |text| && !(48 <= text[i] <= 57) && (i > 0 || text[i] != 45);
      assert !IsDigit(text[i]);
      if text[0] == 45 {
        assert text[1..][i - 1] == text[i];
      }
    }
  }

  lemma NumberMeans(c: Context, d: Data, depth: nat, a: int, text: seq<int>, r: Stack)
    requires d.ds == Push(a, r) && Counted(d.low, a) && CountedText(d.low, a) == text && Depth(r) + 2 <= DATA_STACK_SIZE
    ensures Meaning(c, NUMBER, d, depth)
         == Some(d.(ds := if ParseNumber(text).Some? then Push(1, Push(ParseNumber(text).value, r)) else Push(0, Push(0, r))))
  {
    hide ShuffleMeaning, ReturnMeaning, DeviceMeaning, FetchMeaning, StoreMeaning, WordMeaning, FindMeaning,
         ArithmeticMeaning, ParseNumber, CountedText;
    TwoPushed(1, if ParseNumber(text).Some? then ParseNumber(text).value else 0, r);
    TwoPushed(0, 0, r);
  }

  /** `NUMBER` leaves the integer of the text and 1, or two zeros. */
  lemma NumberLeaves(m: M.State, a: int, text: seq<int>, r: Stack)
    requires BootedWith(CallThread("NUMBER"), m) && M.Sound(m) && DataStack(m) == Push(a, r)
    requires HoldsText(m, a, text) && Depth(r) + 2 <= DATA_STACK_SIZE
    ensures forall k: nat, n: int :: text == Padded(k, n) ==> LeavesStack(m, Push(1, Push(n, r)))
    ensures NotANumber(text) ==> LeavesStack(m, Push(0, Push(0, r)))
  {
    hide Names, BootedWith, LeavesStack, Meaning, ImageProgram, AllWords, Kernel, HoldsText, ParseNumber, Padded, NotANumber;
    TextNames();
    StartIs(m);
    TextHeld(m, a, text);
    NumberMeans(ProgramFor(CallThread("NUMBER")).context, Start(m), Depth(ReturnStack(m)), a, text, r);
    var s := if ParseNumber(text).Some? then Push(1, Push(ParseNumber(text).value, r)) else Push(0, Push(0, r));
    StackLeft("NUMBER", NUMBER, m, s);
    if NotANumber(text) {
      NotANumberRead(text);
    }
    forall k: nat, n: int | text == Padded(k, n)
      ensures LeavesStack(m, Push(1, Push(n, r)))
    {
      PaddedRead(k, n);
    }
  }

  // ---- `WORD` ----

  lemma WordMeans(c: Context, d: Data, depth: nat, delim: int, k: nat, text: seq<int>, rest: seq<int>, r: Stack)
    requires d.ds == Push(delim, r) && d.input == Fed(delim, k, text, rest) && text != [] && delim !in text
    requires c.top <= WORD_BUFFER_BASE && |d.low| == 2048 && |text| < 64 && Depth(d.ds) <= DATA_STACK_SIZE
    ensures Meaning(c, WORD, d, depth)
         == Some(d.(ds := Push(1984, r), low := d.low[..1984] + [|text|] + text + d.low[1985 + |text|..], input := rest))
  {
    hide ShuffleMeaning, ReturnMeaning, DeviceMeaning, FetchMeaning, StoreMeaning, NumberMeaning, FindMeaning,
         ArithmeticMeaning, NextToken, Fed;
    FedScans(delim, k, text, rest);
  }

  /** `WORD` skips delimiters, stores the token as a counted string at 1984 and takes its closing delimiter. */
  lemma WordLeaves(m: M.State, delim: int, k: nat, text: seq<int>, rest: seq<int>, r: Stack)
    requires BootedWith(CallThread("WORD"), m) && M.Sound(m) && DataStack(m) == Push(delim, r)
    requires m.input == Fed(delim, k, text, rest) && text != [] && delim !in text && |text| < 64
    ensures HaltsLeaving(m, Push(1984, r), ReturnStack(m),
                   m.mem[..1984] + [|text|] + text + m.mem[1985 + |text|..2048], rest, m.output)
  {
    hide Names, BootedWith, HaltsLeaving, Meaning, AllWords, Kernel, Fed, ImageEnd;
    TextNames();
    StartIs(m);
    StackFits(m);
    KernelEnds();
    EndIsPositive(AllWords([]));
    var low := m.mem[..DICTIONARY_SIZE];
    WordMeans(ProgramFor(CallThread("WORD")).context, Start(m), Depth(ReturnStack(m)), delim, k, text, rest, r);
    var low' := low[..1984] + [|text|] + text + low[1985 + |text|..];
    assert low' == m.mem[..1984] + [|text|] + text + m.mem[1985 + |text|..2048];
    CallLeaves("WORD", WORD, m, Start(m).(ds := Push(1984, r), low := low', input := rest));
  }

  /** The kernel's own image ends well before the buffer of `WORD`. */
  lemma KernelEnds()
    ensures ImageEnd(AllWords([])) <= 437
  {
    hide WordName, AllWords;
    var words := AllWords([]);
    KernelWordsOnly();
    forall w | w in words
      ensures w.CodeWord? && |w.name| <= 6
    {
      var k :| 0 <= k < |words| && words[k] == w;
      AllWordsAt([], k);
      ShortName(PRIMITIVES[k]);
    }
    EndAtMost(words);
  }

  // ---- `FIND` ----

  lemma CodesApart(s: string, t: string)
    ensures Codes(s) == Codes(t) <==> s == t
  {
    if Codes(s) == Codes(t) {
      forall i | 0 <= i < |s|
        ensures s[i] == t[i]
      {
        assert Codes(s)[i] == Codes(t)[i];
      }
    }
  }

  lemma {:induction false} NewestAt(es: seq<WordEntry>, s: seq<int>, k: nat, n: nat)
    requires k < n <= |es| && Answers(es[k], s) && forall j :: k < j < n ==> !Answers(es[j], s)
    ensures Newest(es, s, n) == Some(k)
  {
    if k < n - 1 {
      NewestAt(es, s, k, n - 1);
    }
  }

  lemma {:induction false} NewestNone(es: seq<WordEntry>, s: seq<int>, n: nat)
    requires n <= |es| && forall j :: 0 <= j < n ==> !Answers(es[j], s)
    ensures Newest(es, s, n) == None
  {
    if n > 0 {
      NewestNone(es, s, n - 1);
    }
  }

  lemma KernelEntry(k: nat)
    requires k < 39
    ensures |KERNEL_NAMES| == 39 && |AllWords([])| == 39
    ensures var e := EntriesOf(Kernel(), AllWords([]))[k];
      e.name == KERNEL_NAMES[k] && e.immediate == 0 && e.smudge == 0
  {
    hide AllWords, EntriesOf, Kernel, KERNEL_NAMES;
    KernelTable(k);
    EntryInstalled(Kernel(), AllWords([]), k);
  }

  lemma NamesApart(j: nat, k: nat)
    requires j < k < 39
    ensures |KERNEL_NAMES| == 39 && KERNEL_NAMES[j] != KERNEL_NAMES[k]
  {
    hide WordName, PRIMITIVES, KERNEL_NAMES, KernelShape.Order;
    Rows(j);
    Rows(k);
    KernelAssembles.InOrder(j);
    KernelAssembles.InOrder(k);
    assert WordName(PRIMITIVES[j]) == KERNEL_NAMES[j];
  }

  /** The answer for every name of the kernel, and for every text that is no name of it. */
  lemma KernelFinds(s: seq<int>)
    ensures |KERNEL_NAMES| == 39 && |AllWords([])| == 39
    ensures forall k: nat :: k < 39 && s == Codes(KERNEL_NAMES[k]) ==>
      Found(EntriesOf(Kernel(), AllWords([])), s) == (Cfa(EntriesOf(Kernel(), AllWords([])), k), -1)
    ensures (forall k: nat :: k < 39 ==> s != Codes(KERNEL_NAMES[k])) ==>
      Found(EntriesOf(Kernel(), AllWords([])), s) == (0, 0)
  {
    hide AllWords, EntriesOf, Kernel, KERNEL_NAMES, Cfa, Codes, Newest;
    var es := EntriesOf(Kernel(), AllWords([]));
    KernelEntry(0);
    forall j | 0 <= j < 39
      ensures Answers(es[j], s) <==> Codes(KERNEL_NAMES[j]) == s
      ensures es[j].immediate == 0
    {
      KernelEntry(j);
    }
    forall k: nat | k < 39 && s == Codes(KERNEL_NAMES[k])
      ensures Found(es, s) == (Cfa(es, k), -1)
    {
      forall j | k < j < 39
        ensures !Answers(es[j], s)
      {
        NamesApart(k, j);
        CodesApart(KERNEL_NAMES[k], KERNEL_NAMES[j]);
      }
      NewestAt(es, s, k, 39);
    }
    if forall k: nat :: k < 39 ==> s != Codes(KERNEL_NAMES[k]) {
      NewestNone(es, s, 39);
    }
  }

  lemma FindMeans(c: Context, d: Data, depth: nat, a: int, text: seq<int>, r: Stack, xt: int, flag: int)
    requires d.ds == Push(a, r) && Counted(d.low, a) && CountedText(d.low, a) == text && Depth(r) + 2 <= DATA_STACK_SIZE
    requires Found(c.dict, text) == (xt, flag)
    ensures Meaning(c, FIND, d, depth) == Some(d.(ds := Push(flag, Push(xt, r))))
  {
    hide ShuffleMeaning, ReturnMeaning, DeviceMeaning, FetchMeaning, StoreMeaning, NumberMeaning, WordMeaning,
         ArithmeticMeaning, Found, CountedText;
    TwoPushed(flag, xt, r);
  }

  lemma FindLeavesAnswer(m: M.State, a: int, text: seq<int>, r: Stack, xt: int, flag: int)
    requires BootedWith(CallThread("FIND"), m) && M.Sound(m) && DataStack(m) == Push(a, r)
    requires HoldsText(m, a, text) && Depth(r) + 2 <= DATA_STACK_SIZE
    requires Found(EntriesOf(Kernel(), AllWords([])), text) == (xt, flag)
    ensures LeavesStack(m, Push(flag, Push(xt, r)))
  {
    hide Names, BootedWith, LeavesStack, Meaning, EntriesOf, AllWords, Kernel, HoldsText, Found, ImageTop;
    TextNames();
    StartIs(m);
    TextHeld(m, a, text);
    FindMeans(ProgramFor(CallThread("FIND")).context, Start(m), Depth(ReturnStack(m)), a, text, r, xt, flag);
    StackLeft("FIND", FIND, m, Push(flag, Push(xt, r)));
  }

  /** `FIND` answers the code field address of the word so named, in the order of the table, and -1,
      since no kernel word is immediate; two zeros for any other text. */
  lemma FindLeaves(m: M.State, a: int, text: seq<int>, r: Stack)
    requires BootedWith(CallThread("FIND"), m) && M.Sound(m) && DataStack(m) == Push(a, r)
    requires HoldsText(m, a, text) && Depth(r) + 2 <= DATA_STACK_SIZE
    ensures |KERNEL_NAMES| == 39 && |AllWords([])| == 39
    ensures forall k: nat :: k < 39 && text == Codes(KERNEL_NAMES[k]) ==>
      LeavesStack(m, Push(-1, Push(Cfa(EntriesOf(Kernel(), AllWords([])), k), r)))
    ensures (forall k: nat :: k < 39 ==> text != Codes(KERNEL_NAMES[k])) ==> LeavesStack(m, Push(0, Push(0, r)))
  {
    hide BootedWith, LeavesStack, EntriesOf, AllWords, Kernel, HoldsText, Found, KERNEL_NAMES, Codes, Cfa;
    KernelFinds(text);
    var (xt, flag) := Found(EntriesOf(Kernel(), AllWords([])), text);
    FindLeavesAnswer(m, a, text, r, xt, flag);
  }
}
