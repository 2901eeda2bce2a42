/** Numbers survive printing and reading: `WORD NUMBER` on the decimal text of an integer gives the
    integer back. */
module RoundTrip {
  import opened Wrappers
  import opened Isa
  import opened Layout
  import opened Stacks
  import opened Assembler
  import opened AbstractMachine
  import opened KernelLayout
  import opened DictionaryShape
  import opened Words
  import opened Primitives
  import opened Evaluation
  import opened Building
  import opened Correctness
  import opened Separation
  import M = Machine

  /** The decimal digits of `n`, most significant first, as character codes. */
  function Digits(n: nat): seq<int> {
    if n < 10 then [48 + n] else Digits(n / 10) + [48 + n % 10]
  }

  function Decimal(n: int): seq<int> { if n < 0 then [45] + Digits(-n) else Digits(n) }

  lemma {:induction false} DigitsRead(n: nat)
    ensures Digits(n) != [] && AllDigits(Digits(n)) && DigitsValue(Digits(n)) == n
  {
    var s := Digits(n);
    if n >= 10 {
      DigitsRead(n / 10);
      assert s[..|s| - 1] == Digits(n / 10);
    } else {
      assert s[..0] == [];
    }
  }

  lemma DecimalRead(n: int)
    ensures ParseNumber(Decimal(n)) == Some(n)
  {
    hide Digits, DigitsValue;
    if n < 0 {
      DigitsRead(-n);
      assert Decimal(n)[1..] == Digits(-n);
    } else {
      DigitsRead(n);
      assert IsDigit(Digits(n)[0]);
    }
  }

  /** A character that cannot be part of a number's text. */
  predicate Separator(c: int) { c != 45 && !IsDigit(c) }

  lemma DecimalApart(n: int, c: int)
    requires Separator(c)
    ensures Decimal(n) != [] && c !in Decimal(n)
  {
    DigitsRead(if n < 0 then -n else n);
  }

  function Repeat(c: int, k: nat): seq<int> { if k == 0 then [] else [c] + Repeat(c, k - 1) }

  /** The input device fed any number of delimiters, a token, one delimiter and a rest. */
  function Fed(delim: int, k: nat, text: seq<int>, rest: seq<int>): seq<int> {
    Repeat(delim, k) + (text + ([delim] + rest))
  }

  lemma {:induction false} LeadingFed(delim: int, k: nat, text: seq<int>, rest: seq<int>)
    requires text != [] && delim !in text
    ensures Leading(Fed(delim, k, text, rest), delim) == k <= |Fed(delim, k, text, rest)|
    ensures Fed(delim, k, text, rest)[k..] == text + ([delim] + rest)
  {
    var body := text + ([delim] + rest);
    if k > 0 {
      LeadingFed(delim, k - 1, text, rest);
      assert Fed(delim, k, text, rest) == [delim] + Fed(delim, k - 1, text, rest);
    } else {
      assert Fed(delim, 0, text, rest) == body && body[0] == text[0] && text[0] in text;
    }
  }

  lemma {:induction false} TokenFed(delim: int, text: seq<int>, rest: seq<int>)
    requires delim !in text
    ensures TokenLength(text + ([delim] + rest), delim) == |text|
  {
    if text != [] {
      TokenFed(delim, text[1..], rest);
      assert (text + ([delim] + rest))[1..] == text[1..] + ([delim] + rest);
    }
  }

  /** `WORD`'s tokenizer takes such an input apart exactly. */
  lemma FedScans(delim: int, k: nat, text: seq<int>, rest: seq<int>)
    requires text != [] && delim !in text
    ensures NextToken(Fed(delim, k, text, rest), delim) == Some(Scan(text, rest))
  {
    LeadingFed(delim, k, text, rest);
    TokenFed(delim, text, rest);
    var body := text + ([delim] + rest);
    assert body[..|text|] == text && body[|text| + 1..] == rest;
  }

  lemma CountedRead(low: seq<int>, a: int, text: seq<int>)
    requires 0 <= a && a + 1 + |text| <= |low|
    ensures Counted(WithCounted(low, a, text), a) && CountedText(WithCounted(low, a, text), a) == text
  {
    var low' := WithCounted(low, a, text);
    assert low'[a] == |text|;
    assert low'[a + 1..a + 1 + |text|] == text;
  }

  /** Print, then read: whatever surrounds it, the text of `n` comes back as `n` and a success flag,
      with exactly the rest left unread. */
  lemma PrintThenRead(c: Context, d: Data, depth: nat, n: int, delim: int, k: nat, rest: seq<int>)
    requires c.top <= WORD_BUFFER_BASE && |d.low| == DICTIONARY_SIZE
    requires Separator(delim) && |Decimal(n)| < WORD_BUFFER_SIZE
    requires d.ds.Push? && d.ds.top == delim && Depth(d.ds) < DATA_STACK_SIZE
    requires d.input == Fed(delim, k, Decimal(n), rest)
    ensures Meaning(c, WORD, d, depth).Some?
    ensures var d1 := Meaning(c, WORD, d, depth).value;
      var d2 := Meaning(c, NUMBER, d1, depth);
      && d2.Some? && d2.value.ds == Push(1, Push(n, d.ds.rest)) && d2.value.input == rest
      && d2.value.rs == d.rs && d2.value.output == d.output
  {
    hide Decimal, Fed, NextToken, WithCounted, ParseNumber;
    DecimalApart(n, delim);
    FedScans(delim, k, Decimal(n), rest);
    CountedRead(d.low, WORD_BUFFER_BASE, Decimal(n));
    DecimalRead(n);
    TwoPushed(1, n, d.ds.rest);
  }

  const READ_THREAD := [WordReference("WORD"), WordReference("NUMBER"), WordReference("BYE")]

  /** What evaluation makes of `WORD NUMBER BYE`. */
  lemma ReadEvaluates(p: Program, d: Data, depth: nat, n: int, delim: int, k: nat, rest: seq<int>)
    requires Matched(p) && p.context.top <= WORD_BUFFER_BASE && |d.low| == DICTIONARY_SIZE
    requires Unshadowed(p.words, "WORD", WORD) && Unshadowed(p.words, "NUMBER", NUMBER)
    requires Unshadowed(p.words, "BYE", BYE)
    requires Separator(delim) && |Decimal(n)| < WORD_BUFFER_SIZE
    requires d.ds.Push? && d.ds.top == delim && Depth(d.ds) < DATA_STACK_SIZE
    requires d.input == Fed(delim, k, Decimal(n), rest)
    ensures var o := EvalThread(p, |p.words|, READ_THREAD, 0, d, depth);
      && o.Stopped? && !o.nested
      && o.d.ds == Push(1, Push(n, d.ds.rest)) && o.d.input == rest && o.d.output == d.output && o.d.rs == d.rs
  {
    hide Meaning, RoutineCost, Lookup, Decimal, Fed, EvalThread;
    PrintThenRead(p.context, d, depth, n, delim, k, rest);
    var d1 := Meaning(p.context, WORD, d, depth).value;
    var d2 := Meaning(p.context, NUMBER, d1, depth).value;
    CodeWordEvaluates(p, READ_THREAD, 0, d, depth, WORD);
    CodeWordEvaluates(p, READ_THREAD, 1, d1, depth, NUMBER);
    CodeWordEvaluates(p, READ_THREAD, 2, d2, depth, BYE);
  }

  /** On the machine: with a separator on the data stack and the text of any integer somewhere in the
      input, the booted kernel runs `WORD NUMBER BYE` to a halt with the integer and 1 on the stack
      and exactly what follows the text unread. */
  lemma KernelReads(asm: Assembly, words: seq<WordSpec>, m: M.State, n: int, k: nat, rest: seq<int>)
    requires KernelLoaded(asm) && Accepted(words, READ_THREAD) && Booted(words, m)
    requires ImageIn(asm, words, READ_THREAD, m.mem[..DICTIONARY_SIZE])
    requires ImageTop(words, READ_THREAD) <= WORD_BUFFER_BASE
    requires Unshadowed(words, "WORD", WORD) && Unshadowed(words, "NUMBER", NUMBER) && Unshadowed(words, "BYE", BYE)
    requires DataStack(m).Push? && Separator(DataStack(m).top) && Depth(DataStack(m)) < DATA_STACK_SIZE
    requires |Decimal(n)| < WORD_BUFFER_SIZE && m.input == Fed(DataStack(m).top, k, Decimal(n), rest)
    ensures var o := BootOutcome(asm, words, READ_THREAD, m);
      && o.Stopped? && o.d.ds == Push(1, Push(n, DataStack(m).rest)) && o.d.input == rest
      && HaltsAs(asm.program, m, 3 + o.cost, o.d, false, ImageTop(words, READ_THREAD))
  {
    hide KernelLoaded, Accepted, ImageIn, HaltsAs, RunNeeds, EvalThread, EntriesOf, Unshadowed, Decimal, Fed;
    ReadEvaluates(ImageProgram(asm, words, READ_THREAD), View(m).d.(rs := Empty), Depth(ReturnStack(m)), n,
                  DataStack(m).top, k, rest);
    CompilerCorrect(asm, words, READ_THREAD, m);
  }
}
