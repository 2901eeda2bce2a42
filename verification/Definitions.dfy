/** Which definitions the two implementations agree on, told by the names their authors write. */
module Definitions {
  import opened Wrappers
  import opened Isa
  import opened KernelSource
  import opened Evaluation
  import opened Building
  import opened Agreement
  import opened ForthWords
  import opened ForthNames
  import opened NameTable
  import KernelLayout
  import KernelAssembles
  import KernelShape
  import Nesting

  const ARITHMETIC_NAMES := ["+", "-", "*", "NEGATE", "ABS", "1+", "1-", "AND", "OR", "INVERT"]
  const RETURN_NAMES := [">R", "R>", "R@"]
  const CELL_ACCESS_NAMES := ["@", "!"]

  /** The kernel's words that both implementations run alike. */
  predicate PlainName(name: string, shared: bool) {
    name in STACK_NAMES || name in ARITHMETIC_NAMES || name in RETURN_NAMES || (shared && name in CELL_ACCESS_NAMES)
  }

  lemma ArithmeticPrim(name: string) returns (p: Prim)
    requires name in ARITHMETIC_NAMES
    ensures Names(name, p) && forall shared :: Agreeing(p, shared)
  {
    hide Names;
    ArithmeticNames();
    LogicNames();
    p := if name == "+" then PLUS else if name == "-" then MINUS else if name == "*" then MUL
         else if name == "NEGATE" then NEGATE else if name == "ABS" then ABS else if name == "1+" then ONEPLUS
         else if name == "1-" then ONEMINUS else if name == "AND" then BITAND else if name == "OR" then BITOR
         else BITINVERT;
  }

  lemma PlainPrim(name: string, shared: bool) returns (p: Prim)
    requires PlainName(name, shared)
    ensures Names(name, p) && Agreeing(p, shared)
  {
    hide Names;
    if name in STACK_NAMES {
      p := StackPrim(name);
    } else if name in ARITHMETIC_NAMES {
      p := ArithmeticPrim(name);
    } else {
      MemoryNames();
      p := if name == ">R" then TOR else if name == "R>" then FROMR else if name == "R@" then RFETCH
           else if name == "@" then FETCH else STOREW;
    }
  }

  lemma AgreeingHasName(p: Prim, shared: bool)
    requires Agreeing(p, shared)
    ensures PlainName(WordName(p), shared)
  {
    hide WordName;
    if IsShuffleWord(p) {
      StackHasName(p);
    } else {
      MemoryNames();
      ArithmeticNames();
      LogicNames();
    }
  }

  predicate IsShuffleWord(p: Prim) { p in {DUP, DROP, SWAP, OVER, ROT, NROT, NIP, TUCK} }

  /** A word of the kernel is one of these exactly when the two agree on it. */
  lemma PlainNames(name: string, p: Prim, shared: bool)
    requires Names(name, p)
    ensures PlainName(name, shared) <==> Agreeing(p, shared)
  {
    hide PlainName, Agreeing, Names;
    NameOf(name, p);
    if PlainName(name, shared) {
      var q := PlainPrim(name, shared);
      SamePrim(name, p, q);
    }
    if Agreeing(p, shared) {
      AgreeingHasName(p, shared);
    }
  }

  // ---- programs ----

  /** Every definition takes a name that is neither the kernel's nor that of an earlier one. */
  predicate NewNames(colon: seq<WordSpec>) {
    forall j :: 0 <= j < |colon| ==>
      colon[j].name !in KERNEL_NAMES && forall i :: 0 <= i < j ==> colon[i].name != colon[j].name
  }

  predicate AllColon(colon: seq<WordSpec>) { forall w :: w in colon ==> w.ColonWord? }

  /** The words of an image, by position: the kernel's, then the definitions. */
  lemma WordAt(colon: seq<WordSpec>, k: nat)
    requires AllColon(colon) && k < |AllWords(colon)|
    ensures |AllWords(colon)| == 39 + |colon| && |KERNEL_NAMES| == 39
    ensures k < 39 ==> AllWords(colon)[k].CodeWord? && AllWords(colon)[k].name == KERNEL_NAMES[k]
    ensures k < 39 ==> Names(AllWords(colon)[k].name, AllWords(colon)[k].prim)
    ensures k >= 39 ==> AllWords(colon)[k] == colon[k - 39] && colon[k - 39].ColonWord?
  {
    hide Names, WordName, AllWords, PRIMITIVES, KERNEL_NAMES;
    Agreement.AllWordsSize(colon);
    AllWordsAt(colon, k);
    Rows(0);
    if k < 39 {
      Rows(k);
      NameOf(KERNEL_NAMES[k], PRIMITIVES[k]);
    }
  }

  lemma NameOf(name: string, p: Prim)
    requires Names(name, p)
    ensures WordName(p) == name
  {
  }

  /** Names are taken once exactly when every definition's is new. */
  lemma UnambiguousIs(colon: seq<WordSpec>)
    requires AllColon(colon)
    ensures Unambiguous(AllWords(colon)) <==> NewNames(colon)
  {
    hide WordName, AllWords, KERNEL_NAMES, Names;
    var words := AllWords(colon);
    Agreement.AllWordsSize(colon);
    Rows(0);
    forall k | 0 <= k < |words|
      ensures k < 39 ==> words[k].CodeWord? && words[k].name == KERNEL_NAMES[k]
      ensures k >= 39 ==> words[k] == colon[k - 39] && colon[k - 39].ColonWord?
    {
      WordAt(colon, k);
    }
    if Unambiguous(words) {
      forall j | 0 <= j < |colon|
        ensures colon[j].name !in KERNEL_NAMES && forall i :: 0 <= i < j ==> colon[i].name != colon[j].name
      {
        forall i | 0 <= i < 39 + j
          ensures words[i].name != colon[j].name
        {
          assert Apart(words, i, 39 + j);
        }
        forall i | 0 <= i < j
          ensures colon[i].name != colon[j].name
        {
          assert words[39 + i] == colon[i];
        }
      }
    }
    if NewNames(colon) {
      forall i, j | 0 <= i < j < |words|
        ensures Apart(words, i, j)
      {
        if j >= 39 && i >= 39 {
          assert colon[i - 39].name != colon[j - 39].name;
        }
      }
    }
  }

  /** Word `x` of definition `i` is a plain name or an earlier definition's. */
  predicate PlainUse(colon: seq<WordSpec>, i: nat, x: string, shared: bool)
    requires i <= |colon|
  {
    PlainName(x, shared) || exists k :: 0 <= k < i && colon[k].name == x
  }

  /** Definitions are written in plain names and names defined before. */
  predicate PlainUses(colon: seq<WordSpec>, shared: bool) {
    forall i, j :: 0 <= i < |colon| && colon[i].ColonWord? && 0 <= j < |colon[i].words| ==>
      PlainUse(colon, i, colon[i].words[j], shared)
  }

  /** What a name is bound to in definition `i`. */
  lemma BoundTo(colon: seq<WordSpec>, i: nat, x: string, shared: bool)
    requires AllColon(colon) && NewNames(colon) && i <= |colon|
    ensures |AllWords(colon)| == 39 + |colon|
    ensures var words := AllWords(colon);
      var r := Lookup(words[..39 + i], x);
      && (PlainUse(colon, i, x, shared)
          <==> r.Some? && (words[r.value].CodeWord? ==> Agreeing(words[r.value].prim, shared)))
      && (forall p: Prim :: Names(x, p) ==> r.Some? && words[r.value].CodeWord? && words[r.value].prim == p)
      && (x !in KERNEL_NAMES && r.Some? ==> words[r.value].ColonWord?)
  {
    hide WordName, AllWords, KERNEL_NAMES, Names, PlainName, Agreeing, Lookup;
    var words := AllWords(colon);
    Agreement.AllWordsSize(colon);
    Rows(0);
    var r := Lookup(words[..39 + i], x);
    forall k | 0 <= k < |words|
      ensures k < 39 ==> words[k].CodeWord? && words[k].name == KERNEL_NAMES[k] && Names(words[k].name, words[k].prim)
      ensures k >= 39 ==> words[k] == colon[k - 39] && colon[k - 39].ColonWord?
    {
      WordAt(colon, k);
    }
    if r.Some? && r.value < 39 {
      PlainNames(x, words[r.value].prim, shared);
      forall k | 0 <= k < i
        ensures colon[k].name != x
      {
        assert words[..39 + i][39 + k] == colon[k];
      }
    }
    forall p: Prim | Names(x, p)
      ensures r.Some? && words[r.value].CodeWord? && words[r.value].prim == p
    {
      KernelName(x, p);
      var k :| 0 <= k < 39 && KERNEL_NAMES[k] == x;
      assert words[..39 + i][k].name == x;
      SamePrim(x, p, words[r.value].prim);
    }
    if PlainName(x, shared) {
      var p := PlainPrim(x, shared);
    } else if k :| 0 <= k < i && colon[k].name == x {
      assert words[..39 + i][39 + k].name == x;
    }
  }

  lemma SamePrim(x: string, p: Prim, q: Prim)
    requires Names(x, p) && Names(x, q)
    ensures p == q
  {
    assert WordName(p) == x && WordName(q) == x;
  }

  lemma KernelName(x: string, p: Prim)
    requires Names(x, p)
    ensures |KERNEL_NAMES| == 39 && exists k :: 0 <= k < 39 && KERNEL_NAMES[k] == x
  {
    hide Names, PRIMITIVES, KERNEL_NAMES, WordName;
    KernelLayout.EveryPrim(p);
    Rows(0);
    var k :| 0 <= k < |PRIMITIVES| && PRIMITIVES[k] == p;
    Rows(k);
    NameOf(KERNEL_NAMES[k], p);
    NameOf(x, p);
  }

  /** Definitions the assembler of threads accepts are plain exactly when they are written in plain names
      and names defined before. */
  lemma PlainIs(colon: seq<WordSpec>, shared: bool)
    requires AllColon(colon) && NewNames(colon) && AllResolvable(AllWords(colon))
    ensures Plain(AllWords(colon), shared) <==> PlainUses(colon, shared)
  {
    hide WordName, AllWords, KERNEL_NAMES, Names, PlainName, Agreeing, Lookup, NewNames, PlainUse;
    var words := AllWords(colon);
    Agreement.AllWordsSize(colon);
    forall i, j | 0 <= i < |colon| && colon[i].ColonWord? && 0 <= j < |colon[i].words|
      ensures words[39 + i] == colon[i]
      ensures PlainAt(words, 39 + i, j, shared) <==> PlainUse(colon, i, colon[i].words[j], shared)
    {
      WordAt(colon, 39 + i);
      BoundTo(colon, i, colon[i].words[j], shared);
      assert Resolvable(words[..39 + i], words[39 + i]);
      assert ItemsOf(colon[i].words)[j] in ItemsOf(colon[i].words);
    }
    forall i | 0 <= i < |words|
      ensures i < 39 ==> words[i].CodeWord?
      ensures i >= 39 ==> words[i] == colon[i - 39]
    {
      WordAt(colon, i);
    }
    if PlainUses(colon, shared) {
      forall i, j | 0 <= i < |words| && words[i].ColonWord? && 0 <= j < |words[i].words|
        ensures PlainAt(words, i, j, shared)
      {
        assert PlainUse(colon, i - 39, colon[i - 39].words[j], shared);
      }
    }
    if Plain(words, shared) {
      forall i, j | 0 <= i < |colon| && colon[i].ColonWord? && 0 <= j < |colon[i].words|
        ensures PlainUse(colon, i, colon[i].words[j], shared)
      {
        assert PlainAt(words, 39 + i, j, shared);
      }
    }
  }

  /** Definitions in plain names and names defined before resolve. */
  lemma PlainResolves(colon: seq<WordSpec>, shared: bool)
    requires AllColon(colon) && NewNames(colon) && PlainUses(colon, shared)
    ensures AllResolvable(AllWords(colon))
  {
    hide WordName, AllWords, KERNEL_NAMES, Names, PlainName, Agreeing, Lookup, NewNames, PlainUse;
    var words := AllWords(colon);
    Agreement.AllWordsSize(colon);
    ControlNames();
    forall k | 0 <= k < |words|
      ensures Resolvable(words[..k], words[k])
    {
      WordAt(colon, k);
      if k >= 39 {
        var i := k - 39;
        forall item | item in ItemsOf(colon[i].words)
          ensures item.WordReference? && Lookup(words[..k], item.name).Some?
        {
          var j :| 0 <= j < |ItemsOf(colon[i].words)| && ItemsOf(colon[i].words)[j] == item;
          if j < |colon[i].words| {
            BoundTo(colon, i, colon[i].words[j], shared);
          } else {
            BoundTo(colon, i, "EXIT", shared);
            assert Names("EXIT", EXIT);
          }
        }
      }
    }
  }

  // ---- the return stack, word by word ----

  /** Written with `>R`, `R>` and `R@`, a definition takes back all it has put there and no more. */
  predicate TakesBack(code: seq<string>, held: nat) {
    if code == [] then held == 0
    else if code[0] == ">R" then TakesBack(code[1..], held + 1)
    else if code[0] == "R>" then held > 0 && TakesBack(code[1..], held - 1)
    else (code[0] == "R@" ==> held > 0) && TakesBack(code[1..], held)
  }

  lemma {:induction false} BalancedFromIs(colon: seq<WordSpec>, i: nat, j: nat, held: nat)
    requires AllColon(colon) && NewNames(colon) && AllResolvable(AllWords(colon)) && i < |colon|
    requires |AllWords(colon)| == 39 + |colon| && AllWords(colon)[39 + i] == colon[i] && colon[i].ColonWord?
    requires j <= |colon[i].words|
    ensures BalancedFrom(AllWords(colon), 39 + i, j, held) <==> TakesBack(colon[i].words[j..], held)
    decreases |colon[i].words| - j
  {
    hide WordName, AllWords, KERNEL_NAMES, Names, PlainUse, Agreeing, Lookup, NewNames, AllResolvable;
    var words, code := AllWords(colon), colon[i].words;
    if j < |code| {
      var x := code[j];
      assert code[j..][0] == x && code[j..][1..] == code[j + 1..];
      BoundTo(colon, i, x, false);
      MemoryNames();
      assert Resolvable(words[..39 + i], words[39 + i]) by { ResolvableAt(words, 39 + i); }
      assert ItemsOf(code)[j] in ItemsOf(code);
      var r := Lookup(words[..39 + i], x).value;
      WordAt(colon, r);
      if words[r].CodeWord? {
        PrimByName(x, words[r].prim);
      } else {
        NotReturn(colon, r, x);
      }
      BalancedFromIs(colon, i, j + 1, held + 1);
      if held > 0 {
        BalancedFromIs(colon, i, j + 1, held - 1);
      }
      BalancedFromIs(colon, i, j + 1, held);
    }
  }

  lemma ResolvableAt(words: seq<WordSpec>, k: nat)
    requires AllResolvable(words) && k < |words|
    ensures Resolvable(words[..k], words[k])
  {
  }

  lemma PrimByName(x: string, p: Prim)
    requires Names(x, p)
    ensures (x == ">R" <==> p == TOR) && (x == "R>" <==> p == FROMR) && (x == "R@" <==> p == RFETCH)
  {
    hide WordName;
    MemoryNames();
    assert WordName(p) == x;
  }

  lemma NotReturn(colon: seq<WordSpec>, r: nat, x: string)
    requires AllColon(colon) && NewNames(colon) && 39 <= r < 39 + |colon| && colon[r - 39].name == x
    ensures x != ">R" && x != "R>" && x != "R@"
  {
  }

  /** A program is balanced exactly when each definition takes back from the return stack what it puts there. */
  lemma BalancedIs(colon: seq<WordSpec>)
    requires AllColon(colon) && NewNames(colon) && AllResolvable(AllWords(colon))
    ensures Balanced(AllWords(colon)) <==> forall i :: 0 <= i < |colon| && colon[i].ColonWord? ==> TakesBack(colon[i].words, 0)
  {
    hide AllWords, BalancedFrom, TakesBack, NewNames, AllResolvable, Names, KERNEL_NAMES;
    var words := AllWords(colon);
    Agreement.AllWordsSize(colon);
    forall k | 0 <= k < |words|
      ensures k < 39 ==> words[k].CodeWord?
      ensures k >= 39 ==> words[k] == colon[k - 39] && colon[k - 39].ColonWord?
      ensures k >= 39 ==> (BalancedFrom(words, k, 0, 0) <==> TakesBack(colon[k - 39].words, 0))
    {
      WordAt(colon, k);
      if k >= 39 {
        BalancedFromIs(colon, k - 39, 0, 0);
        assert colon[k - 39].words[0..] == colon[k - 39].words;
      }
    }
    if Balanced(words) {
      forall i | 0 <= i < |colon| && colon[i].ColonWord?
        ensures TakesBack(colon[i].words, 0)
      {
        assert words[39 + i] == colon[i];
      }
    }
  }

  // ---- `>R` left alone ----

  /** A thread avoids `>R` exactly when it does not name it. */
  lemma AvoidsIs(colon: seq<WordSpec>, i: nat, items: seq<ThreadItem>)
    requires AllColon(colon) && NewNames(colon) && i <= |colon|
    ensures |AllWords(colon)| == 39 + |colon|
    ensures Nesting.Avoids(AllWords(colon), 39 + i, items) <==> WordReference(">R") !in items
  {
    hide AllWords, KERNEL_NAMES, Names, Lookup, NewNames, PlainUse, Agreeing, WordName;
    var words := AllWords(colon);
    Agreement.AllWordsSize(colon);
    KernelSize();
    MemoryNames();
    forall j | 0 <= j < |items| && items[j].WordReference?
      ensures var r := Lookup(words[..39 + i], items[j].name);
        items[j].name == ">R" <==> r.Some? && words[r.value].CodeWord? && words[r.value].prim == TOR
    {
      var x := items[j].name;
      BoundTo(colon, i, x, false);
      var r := Lookup(words[..39 + i], x);
      if r.Some? {
        WordAt(colon, r.value);
        if words[r.value].CodeWord? {
          PrimByName(x, words[r.value].prim);
        }
      }
    }
  }

  lemma KernelSize()
    ensures |PRIMITIVES| == 39
  {
    hide Names, PRIMITIVES, KERNEL_NAMES;
    Rows(0);
  }

  /** The image leaves the return stack alone exactly when no definition names `>R`. */
  lemma LeavesReturnStackIs(colon: seq<WordSpec>)
    requires AllColon(colon) && NewNames(colon)
    ensures Nesting.LeavesReturnStack(AllWords(colon))
       <==> forall i :: 0 <= i < |colon| && colon[i].ColonWord? ==> ">R" !in colon[i].words
  {
    hide AllWords, KERNEL_NAMES, Names, Nesting.Avoids, NewNames;
    var words := AllWords(colon);
    Agreement.AllWordsSize(colon);
    KernelSize();
    forall k | 0 <= k < |words|
      ensures k < 39 ==> words[k].CodeWord?
      ensures k >= 39 ==> words[k] == colon[k - 39] && colon[k - 39].ColonWord?
      ensures k >= 39 ==> (Nesting.Avoids(words, k, ItemsOf(colon[k - 39].words)) <==> ">R" !in colon[k - 39].words)
    {
      WordAt(colon, k);
      if k >= 39 {
        AvoidsIs(colon, k - 39, ItemsOf(colon[k - 39].words));
        NamedInItems(colon[k - 39].words);
      }
    }
    if Nesting.LeavesReturnStack(words) {
      forall i | 0 <= i < |colon| && colon[i].ColonWord?
        ensures ">R" !in colon[i].words
      {
        assert words[39 + i] == colon[i];
      }
    }
  }

  lemma NamedInItems(code: seq<string>)
    ensures WordReference(">R") in ItemsOf(code) <==> ">R" in code
  {
    var items := ItemsOf(code);
    assert items[|code|] == WordReference("EXIT");
    assert forall j :: 0 <= j < |code| ==> items[j] == WordReference(code[j]);
    if ">R" in code {
      var j :| 0 <= j < |code| && code[j] == ">R";
      assert items[j] in items;
    }
  }
}
