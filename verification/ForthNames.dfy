/** What each word of `ForthService` does, called by its name: the names written out, the results in plain
    arithmetic on the stacks. */
module ForthNames {
  import opened Wrappers
  import opened Isa
  import opened Cpu
  import opened Layout
  import opened Stacks
  import opened AbstractMachine
  import opened Words
  import opened KernelSource
  import opened ForthWords
  import opened NameTable
  import KernelLayout
  import KernelAssembles
  import Bits

  // ---- the names ----

  const STACK_NAMES := ["DUP", "DROP", "SWAP", "OVER", "ROT", "-ROT", "NIP", "TUCK"]
  const PAIR_NAMES := ["+", "-", "*", "=", "<>", "<", ">", "AND", "OR"]
  const SINGLE_NAMES := ["NEGATE", "ABS", "1+", "1-", "0=", "0<", "INVERT"]
  const CELL_NAMES := ["@", "!", ">R", "R>", "R@", "EXIT", "BYE"]
  const PLACEHOLDER_NAMES := ["IF", "ELSE", "THEN", "BEGIN", "UNTIL", "WHILE", "REPEAT", "DO", "LOOP", "+LOOP"]
  const ARGUMENT_NAMES := ["LIT", "DOCOL"]
  const DIVISION_NAMES := ["/", "MOD"]

  predicate IsOther(name: string) { name in PLACEHOLDER_NAMES || name in ARGUMENT_NAMES || name in DIVISION_NAMES }

  predicate IsShared(name: string) {
    name in STACK_NAMES || name in PAIR_NAMES || name in SINGLE_NAMES || name in CELL_NAMES
  }

  lemma OtherNames(name: string)
    ensures name in OTHERS <==> IsOther(name)
    ensures name in PLACEHOLDER_NAMES ==> name in OTHERS && OTHERS[name] == Placeholder
    ensures name in ARGUMENT_NAMES ==> name in OTHERS && OTHERS[name] == NeedsArgument
    ensures name == "/" ==> name in OTHERS && OTHERS[name] == Quotient
    ensures name == "MOD" ==> name in OTHERS && OTHERS[name] == Remainder
  {
  }

  lemma StackPrim(name: string) returns (p: Prim)
    requires name in STACK_NAMES
    ensures Names(name, p) && IsShuffle(p) && Shared(p)
  {
    hide Names;
    StackNames();
    p := if name == "DUP" then DUP else if name == "DROP" then DROP else if name == "SWAP" then SWAP
         else if name == "OVER" then OVER else if name == "ROT" then ROT else if name == "-ROT" then NROT
         else if name == "NIP" then NIP else TUCK;
  }

  lemma PairPrim(name: string) returns (p: Prim)
    requires name in PAIR_NAMES
    ensures Names(name, p) && IsBinary(p) && Shared(p)
  {
    hide Names;
    ArithmeticNames();
    ComparisonNames();
    LogicNames();
    p := if name == "+" then PLUS else if name == "-" then MINUS else if name == "*" then MUL
         else if name == "=" then EQUALS else if name == "<>" then NOTEQUALS else if name == "<" then LESSTHAN
         else if name == ">" then GREATERTHAN else if name == "AND" then BITAND else BITOR;
  }

  lemma SinglePrim(name: string) returns (p: Prim)
    requires name in SINGLE_NAMES
    ensures Names(name, p) && IsUnary(p) && Shared(p)
  {
    hide Names;
    ArithmeticNames();
    ComparisonNames();
    LogicNames();
    p := if name == "NEGATE" then NEGATE else if name == "ABS" then ABS else if name == "1+" then ONEPLUS
         else if name == "1-" then ONEMINUS else if name == "0=" then ZEROEQ else if name == "0<" then ZEROLT
         else BITINVERT;
  }

  lemma CellPrim(name: string) returns (p: Prim)
    requires name in CELL_NAMES
    ensures Names(name, p) && p in {FETCH, STOREW, TOR, FROMR, RFETCH, EXIT, BYE} && Shared(p)
  {
    hide Names;
    MemoryNames();
    ControlNames();
    p := if name == "@" then FETCH else if name == "!" then STOREW else if name == ">R" then TOR
         else if name == "R>" then FROMR else if name == "R@" then RFETCH else if name == "EXIT" then EXIT else BYE;
  }

  lemma SharedPrim(name: string) returns (p: Prim)
    requires IsShared(name)
    ensures Names(name, p) && Shared(p)
  {
    hide Names;
    if name in STACK_NAMES {
      p := StackPrim(name);
    } else if name in PAIR_NAMES {
      p := PairPrim(name);
    } else if name in SINGLE_NAMES {
      p := SinglePrim(name);
    } else {
      p := CellPrim(name);
    }
  }

  lemma StackHasName(p: Prim)
    requires IsShuffle(p)
    ensures WordName(p) in STACK_NAMES
  {
    hide WordName;
    StackNames();
  }

  lemma PairHasName(p: Prim)
    requires IsBinary(p)
    ensures WordName(p) in PAIR_NAMES
  {
    hide WordName;
    ArithmeticNames();
    ComparisonNames();
    LogicNames();
  }

  lemma SingleHasName(p: Prim)
    requires IsUnary(p)
    ensures WordName(p) in SINGLE_NAMES
  {
    hide WordName;
    ArithmeticNames();
    ComparisonNames();
    LogicNames();
  }

  lemma CellHasName(p: Prim)
    requires p in {FETCH, STOREW, TOR, FROMR, RFETCH, EXIT, BYE}
    ensures WordName(p) in CELL_NAMES
  {
    hide WordName;
    MemoryNames();
    ControlNames();
  }

  lemma SharedHasName(p: Prim)
    requires Shared(p)
    ensures IsShared(WordName(p))
  {
    hide WordName;
    if IsShuffle(p) {
      StackHasName(p);
    } else if IsBinary(p) {
      PairHasName(p);
    } else if IsUnary(p) {
      SingleHasName(p);
    } else {
      CellHasName(p);
    }
  }

  /** `build_minimal_dictionary` installs exactly these names. */
  lemma ServiceKnows(name: string)
    ensures name in Minimal(PRIMITIVES) <==> IsShared(name) || IsOther(name)
  {
    hide Names, WordName, PRIMITIVES, Minimal, Shared, OTHERS, IsOther, IsShared;
    if IsShared(name) {
      var p := SharedPrim(name);
      NameKnown(name, p);
    } else {
      forall p: Prim | WordName(p) == name
        ensures !Shared(p)
      {
        if Shared(p) {
          SharedHasName(p);
        }
      }
      MinimalNames(PRIMITIVES, name);
      OtherNames(name);
    }
  }

  // ---- one call ----

  /** `name` is what `build_minimal_dictionary` made it, an entry or none. */
  ghost predicate Untouched(v: Vocabulary, name: string) {
    && Closed(v)
    && (name in v.entries <==> name in Minimal(PRIMITIVES))
    && (name in v.entries ==> v.entries[name] == Minimal(PRIMITIVES)[name])
  }

  /** Every name is at first, and stays so when another one is defined. */
  lemma UntouchedAtFirst(name: string)
    ensures Untouched(Vocabulary(Minimal(PRIMITIVES), map[]), name)
  {
    hide Minimal, PRIMITIVES;
  }

  lemma UntouchedByOthers(v: Vocabulary, name: string, other: string, code: seq<string>)
    requires Untouched(v, name) && other != name
    ensures Untouched(WithColon(v, other, code), name)
  {
    hide Minimal, PRIMITIVES;
  }

  lemma Performs(v: Vocabulary, name: string, p: Prim, f: Forth, limit: nat)
    requires Untouched(v, name) && Names(name, p) && Shared(p)
    ensures RunName(v, name, f, limit) == Perform(p, f)
  {
    hide Names, Minimal, PRIMITIVES, Perform, Shared;
    NameKnown(name, p);
  }

  /** A name that is neither one of these nor defined raises `UnknownWordError`. */
  lemma UnknownName(v: Vocabulary, name: string, f: Forth, limit: nat)
    requires Untouched(v, name)
    ensures RunName(v, name, f, limit) == Raises(UnknownWord(name)) <==> !IsShared(name) && !IsOther(name)
  {
    hide Minimal, PRIMITIVES, Act, IsShared, IsOther;
    ServiceKnows(name);
    if name in v.entries {
      NeverUnknown(v.entries[name], f, name);
    }
  }

  lemma NeverUnknown(w: ForthWord, f: Forth, name: string)
    requires Callable(w)
    ensures Act(w, f) != Raises(UnknownWord(name))
  {
    hide Shuffle, Bits.And, Bits.Or, FloorQuotient, FloorRemainder;
  }

  lemma OtherDoes(v: Vocabulary, name: string, f: Forth, limit: nat)
    requires Untouched(v, name) && IsOther(name)
    ensures RunName(v, name, f, limit) == Act(OTHERS[name], f)
  {
    hide Minimal, PRIMITIVES, Act, OTHERS, WordName;
    OtherNames(name);
    forall p: Prim | WordName(p) == name
      ensures !Shared(p)
    {
      NoOther(p);
    }
    MinimalNames(PRIMITIVES, name);
  }

  lemma NoOther(p: Prim)
    ensures IsOther(WordName(p)) ==> p == LIT
  {
    hide WordName;
    NoPlaceholder(p);
    NoDivision(p);
    NoArgument(p);
  }

  lemma NoPlaceholder(p: Prim)
    ensures WordName(p) !in PLACEHOLDER_NAMES
  {
  }

  lemma NoDivision(p: Prim)
    ensures WordName(p) !in DIVISION_NAMES
  {
  }

  lemma NoArgument(p: Prim)
    ensures WordName(p) in ARGUMENT_NAMES ==> p == LIT
  {
  }

  // ---- what each name does ----

  /** Only the data stack changes. */
  function Stacked(f: Forth, s: Stack): Answer { Fine(f.(d := f.d.(ds := s))) }

  lemma Fits(a: int, b: int, c: int, r: Stack)
    ensures Depth(Push(a, r)) == Depth(r) + 1
    ensures Depth(Push(a, Push(b, r))) == Depth(r) + 2
    ensures Depth(Push(a, Push(b, Push(c, r)))) == Depth(r) + 3
    ensures forall x: int {:trigger Push(x, Push(a, Push(b, Push(c, r))))} :: Depth(Push(x, Push(a, Push(b, Push(c, r))))) == Depth(r) + 4
  {
    assert Depth(Push(a, Push(b, r))) == 1 + Depth(Push(b, r));
    assert Depth(Push(a, Push(b, Push(c, r)))) == 1 + Depth(Push(b, Push(c, r)));
    assert Depth(Push(b, Push(c, r))) == 1 + Depth(Push(c, r));
  }

  lemma Rearranges(v: Vocabulary, name: string, p: Prim, f: Forth, limit: nat, a: int, b: int, c: int, r: Stack, s: Stack)
    requires Untouched(v, name) && Names(name, p) && IsShuffle(p) && Depth(r) + 4 <= DATA_STACK_SIZE
    requires f.d.ds == Push(c, Push(b, Push(a, r))) && Shuffle(p, f.d.ds) == Some(s)
    ensures RunName(v, name, f, limit) == Stacked(f, s)
  {
    hide Names, RunName, Untouched, Shuffle;
    Performs(v, name, p, f, limit);
    ShuffledTo(p, a, b, c, r);
  }

  lemma PairComputes(v: Vocabulary, name: string, p: Prim, f: Forth, limit: nat, a: int, b: int, r: Stack, x: int)
    requires Untouched(v, name) && Names(name, p) && IsBinary(p) && Depth(r) < DATA_STACK_SIZE
    requires f.d.ds == Push(b, Push(a, r)) && BinaryOp(p, a, b) == x
    ensures RunName(v, name, f, limit) == Stacked(f, Push(x, r))
  {
    hide Names, RunName, Untouched, BinaryOp;
    Performs(v, name, p, f, limit);
  }

  lemma SingleComputes(v: Vocabulary, name: string, p: Prim, f: Forth, limit: nat, a: int, r: Stack, x: int)
    requires Untouched(v, name) && Names(name, p) && IsUnary(p) && Depth(r) < DATA_STACK_SIZE
    requires f.d.ds == Push(a, r) && UnaryOp(p, a) == Some(x)
    ensures RunName(v, name, f, limit) == Stacked(f, Push(x, r))
  {
    hide Names, RunName, Untouched, UnaryOp;
    UnaryDefined(p, a);
    Performs(v, name, p, f, limit);
  }

  /** The stack words, on `a b c` with `c` on top. */
  lemma StackNamesDo(v: Vocabulary, name: string, f: Forth, limit: nat, a: int, b: int, c: int, r: Stack)
    requires Untouched(v, name) && f.d.ds == Push(c, Push(b, Push(a, r))) && Depth(r) + 4 <= DATA_STACK_SIZE
    ensures name == "DUP" ==> RunName(v, name, f, limit) == Stacked(f, Push(c, Push(c, Push(b, Push(a, r)))))
    ensures name == "DROP" ==> RunName(v, name, f, limit) == Stacked(f, Push(b, Push(a, r)))
    ensures name == "SWAP" ==> RunName(v, name, f, limit) == Stacked(f, Push(b, Push(c, Push(a, r))))
    ensures name == "OVER" ==> RunName(v, name, f, limit) == Stacked(f, Push(b, Push(c, Push(b, Push(a, r)))))
    ensures name == "ROT" ==> RunName(v, name, f, limit) == Stacked(f, Push(a, Push(c, Push(b, r))))
    ensures name == "-ROT" ==> RunName(v, name, f, limit) == Stacked(f, Push(b, Push(a, Push(c, r))))
    ensures name == "NIP" ==> RunName(v, name, f, limit) == Stacked(f, Push(c, Push(a, r)))
    ensures name == "TUCK" ==> RunName(v, name, f, limit) == Stacked(f, Push(c, Push(b, Push(c, Push(a, r)))))
  {
    hide Names, RunName, Untouched;
    StackNames();
    if name == "DUP" {
      Rearranges(v, name, DUP, f, limit, a, b, c, r, Push(c, Push(c, Push(b, Push(a, r)))));
    }
    if name == "DROP" {
      Rearranges(v, name, DROP, f, limit, a, b, c, r, Push(b, Push(a, r)));
    }
    if name == "SWAP" {
      Rearranges(v, name, SWAP, f, limit, a, b, c, r, Push(b, Push(c, Push(a, r))));
    }
    if name == "OVER" {
      Rearranges(v, name, OVER, f, limit, a, b, c, r, Push(b, Push(c, Push(b, Push(a, r)))));
    }
    if name == "ROT" {
      Rearranges(v, name, ROT, f, limit, a, b, c, r, Push(a, Push(c, Push(b, r))));
    }
    if name == "-ROT" {
      Rearranges(v, name, NROT, f, limit, a, b, c, r, Push(b, Push(a, Push(c, r))));
    }
    if name == "NIP" {
      Rearranges(v, name, NIP, f, limit, a, b, c, r, Push(c, Push(a, r)));
    }
    if name == "TUCK" {
      Rearranges(v, name, TUCK, f, limit, a, b, c, r, Push(c, Push(b, Push(c, Push(a, r)))));
    }
  }

  lemma ShuffledTo(p: Prim, a: int, b: int, c: int, r: Stack)
    requires IsShuffle(p) && Depth(r) + 4 <= DATA_STACK_SIZE
    ensures Shuffle(p, Push(c, Push(b, Push(a, r)))).Some?
    ensures Depth(Shuffle(p, Push(c, Push(b, Push(a, r)))).value) <= DATA_STACK_SIZE
  {
    Fits(c, b, a, r);
    Fits(b, c, a, r);
    Fits(a, c, b, r);
    Fits(b, a, c, r);
    Fits(b, c, a, r);
    assert Depth(Push(c, Push(c, Push(b, Push(a, r))))) == Depth(r) + 4;
    assert Depth(Push(b, Push(c, Push(b, Push(a, r))))) == Depth(r) + 4;
    assert Depth(Push(c, Push(b, Push(c, Push(a, r))))) == Depth(r) + 4;
    Fits(c, a, a, r);
    Fits(b, a, a, r);
  }

  /** The words on two values, `b` on top. */
  lemma PairNamesDo(v: Vocabulary, name: string, f: Forth, limit: nat, a: int, b: int, r: Stack)
    requires Untouched(v, name) && f.d.ds == Push(b, Push(a, r)) && Depth(r) < DATA_STACK_SIZE
    ensures name == "+" ==> RunName(v, name, f, limit) == Stacked(f, Push(a + b, r))
    ensures name == "-" ==> RunName(v, name, f, limit) == Stacked(f, Push(a - b, r))
    ensures name == "*" ==> RunName(v, name, f, limit) == Stacked(f, Push(a * b, r))
    ensures name == "=" ==> RunName(v, name, f, limit) == Stacked(f, Push(if a == b then 1 else 0, r))
    ensures name == "<>" ==> RunName(v, name, f, limit) == Stacked(f, Push(if a != b then 1 else 0, r))
    ensures name == "<" ==> RunName(v, name, f, limit) == Stacked(f, Push(if a < b then 1 else 0, r))
    ensures name == ">" ==> RunName(v, name, f, limit) == Stacked(f, Push(if a > b then 1 else 0, r))
    ensures name == "AND" ==> RunName(v, name, f, limit) == Stacked(f, Push(Bits.And(a, b), r))
    ensures name == "OR" ==> RunName(v, name, f, limit) == Stacked(f, Push(Bits.Or(a, b), r))
  {
    hide Names, RunName, Untouched, Bits.And, Bits.Or;
    ArithmeticNames();
    ComparisonNames();
    LogicNames();
    if name == "+" {
      PairComputes(v, name, PLUS, f, limit, a, b, r, a + b);
    }
    if name == "-" {
      PairComputes(v, name, MINUS, f, limit, a, b, r, a - b);
    }
    if name == "*" {
      PairComputes(v, name, MUL, f, limit, a, b, r, a * b);
    }
    if name == "=" {
      PairComputes(v, name, EQUALS, f, limit, a, b, r, if a == b then 1 else 0);
    }
    if name == "<>" {
      PairComputes(v, name, NOTEQUALS, f, limit, a, b, r, if a != b then 1 else 0);
    }
    if name == "<" {
      PairComputes(v, name, LESSTHAN, f, limit, a, b, r, if a < b then 1 else 0);
    }
    if name == ">" {
      PairComputes(v, name, GREATERTHAN, f, limit, a, b, r, if a > b then 1 else 0);
    }
    if name == "AND" {
      PairComputes(v, name, BITAND, f, limit, a, b, r, Bits.And(a, b));
    }
    if name == "OR" {
      PairComputes(v, name, BITOR, f, limit, a, b, r, Bits.Or(a, b));
    }
  }

  /** The words on one value. */
  lemma SingleNamesDo(v: Vocabulary, name: string, f: Forth, limit: nat, a: int, r: Stack)
    requires Untouched(v, name) && f.d.ds == Push(a, r) && Depth(r) < DATA_STACK_SIZE
    ensures name == "NEGATE" ==> RunName(v, name, f, limit) == Stacked(f, Push(-a, r))
    ensures name == "ABS" ==> RunName(v, name, f, limit) == Stacked(f, Push(if a < 0 then -a else a, r))
    ensures name == "1+" ==> RunName(v, name, f, limit) == Stacked(f, Push(a + 1, r))
    ensures name == "1-" ==> RunName(v, name, f, limit) == Stacked(f, Push(a - 1, r))
    ensures name == "0=" ==> RunName(v, name, f, limit) == Stacked(f, Push(if a == 0 then 1 else 0, r))
    ensures name == "0<" ==> RunName(v, name, f, limit) == Stacked(f, Push(if a < 0 then 1 else 0, r))
    ensures name == "INVERT" ==> RunName(v, name, f, limit) == Stacked(f, Push(-a - 1, r))
  {
    hide Names, RunName, Untouched;
    ArithmeticNames();
    ComparisonNames();
    LogicNames();
    if name == "NEGATE" {
      SingleComputes(v, name, NEGATE, f, limit, a, r, -a);
    }
    if name == "ABS" {
      SingleComputes(v, name, ABS, f, limit, a, r, if a < 0 then -a else a);
    }
    if name == "1+" {
      SingleComputes(v, name, ONEPLUS, f, limit, a, r, a + 1);
    }
    if name == "1-" {
      SingleComputes(v, name, ONEMINUS, f, limit, a, r, a - 1);
    }
    if name == "0=" {
      SingleComputes(v, name, ZEROEQ, f, limit, a, r, if a == 0 then 1 else 0);
    }
    if name == "0<" {
      SingleComputes(v, name, ZEROLT, f, limit, a, r, if a < 0 then 1 else 0);
    }
    if name == "INVERT" {
      SingleComputes(v, name, BITINVERT, f, limit, a, r, -a - 1);
    }
  }

  /** `@` and `!` inside the block, `a` on top. */
  lemma MemoryNamesDo(v: Vocabulary, name: string, f: Forth, limit: nat, a: int, x: int, r: Stack)
    requires Untouched(v, name) && f.d.ds == Push(a, Push(x, r)) && 0 <= a < |f.d.low| && Depth(r) + 2 <= DATA_STACK_SIZE
    ensures name == "@" ==> RunName(v, name, f, limit) == Stacked(f, Push(f.d.low[a], Push(x, r)))
    ensures name == "!" ==> RunName(v, name, f, limit) == Fine(f.(d := f.d.(ds := r, low := f.d.low[a := x])))
  {
    hide Names, RunName, Untouched, Rearrange, ApplyUnary, ApplyBinary, OnReturnStack;
    MemoryNames();
    Fits(f.d.low[a], x, x, r);
    if name == "@" {
      Performs(v, name, FETCH, f, limit);
    }
    if name == "!" {
      Performs(v, name, STOREW, f, limit);
    }
  }

  /** The words of the return stack, and `BYE`. */
  lemma ReturnNamesDo(v: Vocabulary, name: string, f: Forth, limit: nat)
    requires Untouched(v, name) && Depth(f.d.ds) < DATA_STACK_SIZE
    ensures name == ">R" && f.d.ds.Push? && Depth(f.d.rs) < RETURN_STACK_SIZE ==>
      RunName(v, name, f, limit) == Fine(f.(d := f.d.(ds := f.d.ds.rest, rs := Push(f.d.ds.top, f.d.rs))))
    ensures name == "R>" && f.d.rs.Push? ==>
      RunName(v, name, f, limit) == Fine(f.(d := f.d.(ds := Push(f.d.rs.top, f.d.ds), rs := f.d.rs.rest)))
    ensures name == "R@" && f.d.rs.Push? ==> RunName(v, name, f, limit) == Stacked(f, Push(f.d.rs.top, f.d.ds))
    ensures name == "EXIT" && f.d.rs.Push? ==>
      RunName(v, name, f, limit) == Fine(f.(d := f.d.(rs := f.d.rs.rest), regs := Bind(f.regs, Reg(IP), f.d.rs.top)))
    ensures name == "BYE" ==> RunName(v, name, f, limit) == Fine(f.(halted := true))
  {
    hide Names, RunName, Untouched, Rearrange, ApplyUnary, ApplyBinary, OnMemory, Bind;
    MemoryNames();
    ControlNames();
    if name == ">R" {
      Performs(v, name, TOR, f, limit);
    }
    if name == "R>" {
      Performs(v, name, FROMR, f, limit);
    }
    if name == "R@" {
      Performs(v, name, RFETCH, f, limit);
    }
    if name == "EXIT" {
      Performs(v, name, EXIT, f, limit);
    }
    if name == "BYE" {
      Performs(v, name, BYE, f, limit);
    }
  }

  /** Division, and the words that do nothing or cannot be called as they are. */
  lemma OtherNamesDo(v: Vocabulary, name: string, f: Forth, limit: nat)
    requires Untouched(v, name)
    ensures name in PLACEHOLDER_NAMES ==> RunName(v, name, f, limit) == Fine(f)
    ensures name in ARGUMENT_NAMES ==> RunName(v, name, f, limit) == Raises(MissingArgument)
    ensures name in DIVISION_NAMES && (f.d.ds.Empty? || f.d.ds.rest.Empty?) ==> RunName(v, name, f, limit) == UNDERFLOW
    ensures name in DIVISION_NAMES && f.d.ds.Push? && f.d.ds.rest.Push? && f.d.ds.top == 0 ==>
      RunName(v, name, f, limit) == Raises(ZeroDivision)
  {
    hide RunName, Untouched, OTHERS, FloorQuotient, FloorRemainder;
    OtherNames(name);
    if IsOther(name) {
      OtherDoes(v, name, f, limit);
    }
  }

  /** The quotient and the remainder are the only ones there are. */
  lemma DivisionNamesDo(v: Vocabulary, f: Forth, limit: nat, a: int, b: int, q: int, m: int, r: Stack)
    requires Untouched(v, "/") && Untouched(v, "MOD") && f.d.ds == Push(b, Push(a, r)) && Depth(r) < DATA_STACK_SIZE
    requires b != 0 && a == b * q + m && (if b > 0 then 0 <= m < b else b < m <= 0)
    ensures RunName(v, "/", f, limit) == Stacked(f, Push(q, r)) && RunName(v, "MOD", f, limit) == Stacked(f, Push(m, r))
  {
    hide RunName, Untouched, OTHERS, FloorQuotient, FloorRemainder;
    FloorDivision(a, b, q, m);
    OtherNames("/");
    OtherNames("MOD");
    OtherDoes(v, "/", f, limit);
    OtherDoes(v, "MOD", f, limit);
  }

  // ---- and what it refuses ----

  /** The names that take one, two or three values refuse fewer. */
  lemma MissingOperands(v: Vocabulary, name: string, f: Forth, limit: nat)
    requires Untouched(v, name)
    ensures name in SINGLE_NAMES + ["DUP", "DROP", "@", ">R"] && f.d.ds.Empty? ==> RunName(v, name, f, limit) == UNDERFLOW
    ensures name in PAIR_NAMES + ["SWAP", "OVER", "NIP", "TUCK", "!"] && (f.d.ds.Empty? || f.d.ds.rest.Empty?) ==>
      RunName(v, name, f, limit) == UNDERFLOW
    ensures name in ["ROT", "-ROT"] && (f.d.ds.Empty? || f.d.ds.rest.Empty? || f.d.ds.rest.rest.Empty?) ==>
      RunName(v, name, f, limit) == UNDERFLOW
    ensures name in ["R>", "R@", "EXIT"] && f.d.rs.Empty? ==> RunName(v, name, f, limit) == UNDERFLOW
  {
    hide Names, RunName, Untouched, OTHERS, Perform;
    if name in SINGLE_NAMES {
      var p := SinglePrim(name);
      Performs(v, name, p, f, limit);
      OperandUnderflow(p, f);
    } else if name in PAIR_NAMES {
      var p := PairPrim(name);
      Performs(v, name, p, f, limit);
      OperandUnderflow(p, f);
    } else if name in STACK_NAMES {
      ShufflesRefused(v, name, f, limit);
    } else {
      CellsRefused(v, name, f, limit);
    }
  }

  lemma OperandUnderflow(p: Prim, f: Forth)
    ensures IsUnary(p) && f.d.ds.Empty? ==> Perform(p, f) == UNDERFLOW
    ensures IsBinary(p) && (f.d.ds.Empty? || f.d.ds.rest.Empty?) ==> Perform(p, f) == UNDERFLOW
  {
  }

  lemma CellUnderflow(f: Forth)
    ensures f.d.ds.Empty? ==> Perform(FETCH, f) == UNDERFLOW && Perform(TOR, f) == UNDERFLOW
    ensures f.d.ds.Empty? || f.d.ds.rest.Empty? ==> Perform(STOREW, f) == UNDERFLOW
    ensures f.d.rs.Empty? ==>
      Perform(FROMR, f) == UNDERFLOW && Perform(RFETCH, f) == UNDERFLOW && Perform(EXIT, f) == UNDERFLOW
  {
  }

  lemma ShufflesRefused(v: Vocabulary, name: string, f: Forth, limit: nat)
    requires Untouched(v, name)
    ensures name in ["DUP", "DROP"] && f.d.ds.Empty? ==> RunName(v, name, f, limit) == UNDERFLOW
    ensures name in ["SWAP", "OVER", "NIP", "TUCK"] && (f.d.ds.Empty? || f.d.ds.rest.Empty?) ==>
      RunName(v, name, f, limit) == UNDERFLOW
    ensures name in ["ROT", "-ROT"] && (f.d.ds.Empty? || f.d.ds.rest.Empty? || f.d.ds.rest.rest.Empty?) ==>
      RunName(v, name, f, limit) == UNDERFLOW
  {
    hide Names, RunName, Untouched, Perform;
    StackNames();
    ShuffleUnderflow(f);
    if name == "DUP" {
      Performs(v, name, DUP, f, limit);
    }
    if name == "DROP" {
      Performs(v, name, DROP, f, limit);
    }
    if name == "SWAP" {
      Performs(v, name, SWAP, f, limit);
    }
    if name == "OVER" {
      Performs(v, name, OVER, f, limit);
    }
    if name == "ROT" {
      Performs(v, name, ROT, f, limit);
    }
    if name == "-ROT" {
      Performs(v, name, NROT, f, limit);
    }
    if name == "NIP" {
      Performs(v, name, NIP, f, limit);
    }
    if name == "TUCK" {
      Performs(v, name, TUCK, f, limit);
    }
  }

  lemma ShuffleUnderflow(f: Forth)
    ensures f.d.ds.Empty? ==> Perform(DUP, f) == UNDERFLOW && Perform(DROP, f) == UNDERFLOW
    ensures f.d.ds.Empty? || f.d.ds.rest.Empty? ==>
      Perform(SWAP, f) == UNDERFLOW && Perform(OVER, f) == UNDERFLOW && Perform(NIP, f) == UNDERFLOW
      && Perform(TUCK, f) == UNDERFLOW
    ensures f.d.ds.Empty? || f.d.ds.rest.Empty? || f.d.ds.rest.rest.Empty? ==>
      Perform(ROT, f) == UNDERFLOW && Perform(NROT, f) == UNDERFLOW
  {
  }

  lemma CellsRefused(v: Vocabulary, name: string, f: Forth, limit: nat)
    requires Untouched(v, name)
    ensures name in ["@", ">R"] && f.d.ds.Empty? ==> RunName(v, name, f, limit) == UNDERFLOW
    ensures name == "!" && (f.d.ds.Empty? || f.d.ds.rest.Empty?) ==> RunName(v, name, f, limit) == UNDERFLOW
    ensures name in ["R>", "R@", "EXIT"] && f.d.rs.Empty? ==> RunName(v, name, f, limit) == UNDERFLOW
  {
    hide Names, RunName, Untouched, Perform;
    MemoryNames();
    ControlNames();
    CellUnderflow(f);
    if name == "@" {
      Performs(v, name, FETCH, f, limit);
    }
    if name == "!" {
      Performs(v, name, STOREW, f, limit);
    }
    if name == ">R" {
      Performs(v, name, TOR, f, limit);
    }
    if name == "R>" {
      Performs(v, name, FROMR, f, limit);
    }
    if name == "R@" {
      Performs(v, name, RFETCH, f, limit);
    }
    if name == "EXIT" {
      Performs(v, name, EXIT, f, limit);
    }
  }

  /** A full data stack refuses a copy, a full return stack a value. */
  lemma NoRoom(v: Vocabulary, name: string, f: Forth, limit: nat)
    requires Untouched(v, name) && f.d.ds.Push? && f.d.ds.rest.Push?
    ensures name in ["DUP", "OVER", "TUCK"] && Depth(f.d.ds) == DATA_STACK_SIZE ==> RunName(v, name, f, limit) == OVERFLOW
    ensures name == "R@" && f.d.rs.Push? && Depth(f.d.ds) == DATA_STACK_SIZE ==> RunName(v, name, f, limit) == OVERFLOW
    ensures name == "R>" && f.d.rs.Push? && Depth(f.d.ds) == DATA_STACK_SIZE ==> RunName(v, name, f, limit) == OVERFLOW
    ensures name == ">R" && Depth(f.d.rs) == RETURN_STACK_SIZE ==> RunName(v, name, f, limit) == OVERFLOW
  {
    hide Names, RunName, Untouched, Perform;
    StackNames();
    MemoryNames();
    CopyOverflow(f);
    ReturnOverflow(f);
    if name == "DUP" {
      Performs(v, name, DUP, f, limit);
    }
    if name == "OVER" {
      Performs(v, name, OVER, f, limit);
    }
    if name == "TUCK" {
      Performs(v, name, TUCK, f, limit);
    }
    if name == "R@" {
      Performs(v, name, RFETCH, f, limit);
    }
    if name == "R>" {
      Performs(v, name, FROMR, f, limit);
    }
    if name == ">R" {
      Performs(v, name, TOR, f, limit);
    }
  }

  lemma CopyOverflow(f: Forth)
    requires f.d.ds.Push? && f.d.ds.rest.Push?
    ensures Depth(f.d.ds) == DATA_STACK_SIZE ==>
      Perform(DUP, f) == OVERFLOW && Perform(OVER, f) == OVERFLOW && Perform(TUCK, f) == OVERFLOW
  {
    hide ApplyUnary, ApplyBinary, OnMemory, OnReturnStack;
    Deeper(f.d.ds);
  }

  lemma ReturnOverflow(f: Forth)
    requires f.d.ds.Push? && f.d.ds.rest.Push?
    ensures f.d.rs.Push? && Depth(f.d.ds) == DATA_STACK_SIZE ==>
      Perform(RFETCH, f) == OVERFLOW && Perform(FROMR, f) == OVERFLOW
    ensures Depth(f.d.rs) == RETURN_STACK_SIZE ==> Perform(TOR, f) == OVERFLOW
  {
    hide ApplyUnary, ApplyBinary, OnMemory, Rearrange;
    Deeper(f.d.ds);
  }

  lemma Deeper(s: Stack)
    requires s.Push? && s.rest.Push?
    ensures forall x: int {:trigger Push(x, s)} :: Depth(Push(x, s)) == Depth(s) + 1
    ensures Depth(Push(s.top, Push(s.rest.top, Push(s.top, s.rest.rest)))) == Depth(s) + 1
  {
    Fits(s.top, s.rest.top, s.top, s.rest.rest);
    Fits(s.top, s.rest.top, s.rest.top, s.rest.rest);
  }
}
