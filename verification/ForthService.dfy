/** The second implementation of Forth: words as procedures over the shared stacks, found by name
    each time they run (`services/forth.py`). */
module ForthService {
  import opened Wrappers
  import opened Isa
  import opened Cpu
  import opened Layout
  import opened Stacks
  import opened AbstractMachine
  import opened Words
  import opened KernelSource
  import opened StackAdapter
  import opened ForthWords

  type Outcome = Result<(), ForthError>

  /** A call that answered `r` and left `f` behind did what `a` says. */
  ghost predicate Did(a: Answer, r: Outcome, f: Forth) {
    match a
    case Fine(f') => r.Ok? && f == f'
    case Raises(e) => r == Err(e)
    case OutOfBlock => true
  }

  /** A pop from the data stack of `f`. */
  ghost predicate Popped(f: Forth, r: Result<int, ForthError>, f': Forth) {
    if f.d.ds.Empty? then r == Err(Machine(StackUnderflow))
    else r == Ok(f.d.ds.top) && f' == f.(d := f.d.(ds := f.d.ds.rest))
  }

  /** `@` at any address: a Python list read in the memory `mem`, which the two stacks are part of. */
  ghost predicate Fetched(f: Forth, mem: seq<int>, r: Outcome, f': Forth) {
    f.d.ds.Push? ==>
      match ListIndex(f.d.ds.top, |mem|)
      case None => r == Err(Machine(BadIndex))
      case Some(k) => r.Ok? && f' == f.(d := f.d.(ds := Push(mem[k], f.d.ds.rest)))
  }

  /** `!` at any address: a Python list write. What it does to a stack is what that cell is to it. */
  ghost predicate Stored(f: Forth, mem: seq<int>, r: Outcome, mem': seq<int>) {
    f.d.ds.Push? && f.d.ds.rest.Push? ==>
      match ListIndex(f.d.ds.top, |mem|)
      case None => r == Err(Machine(BadIndex))
      case Some(k) => r.Ok? && mem' == mem[k := f.d.ds.rest.top]
  }

  /** What a run of the words of a definition from `f` comes to: its end `f'`, if they all run through;
      the error of the first that raises, if the others before it do; `UnknownWord` in particular, if
      that word is in no entry when it is reached. */
  ghost predicate Told(v: Vocabulary, words: seq<string>, f: Forth, limit: nat, r: Outcome, f': Forth)
    requires Closed(v)
  {
    && (forall g: Forth :: Completes(v, words, f, g, limit) ==> r.Ok? && f' == g)
    && (forall e: ForthError :: Aborts(v, words, f, e, limit) ==> r == Err(e))
    && (forall j, g: Forth :: 0 <= j < |words| && Completes(v, words[..j], f, g, limit) && words[j] !in v.entries ==>
          r == Err(UnknownWord(words[j])))
  }

  lemma ToldBy(v: Vocabulary, words: seq<string>, f: Forth, limit: nat)
    requires Closed(v)
    ensures forall r: Outcome, f': Forth :: Did(RunWords(v, words, f, limit), r, f') ==> Told(v, words, f, limit, r, f')
  {
    hide RunWords, Completes, Aborts;
    forall g: Forth
      ensures Completes(v, words, f, g, limit) ==> RunWords(v, words, f, limit) == Fine(g)
    {
      CompletesIs(v, words, f, g, limit);
    }
    forall e: ForthError
      ensures Aborts(v, words, f, e, limit) ==> RunWords(v, words, f, limit) == Raises(e)
    {
      AbortsIs(v, words, f, e, limit);
    }
    forall j, g: Forth | 0 <= j < |words| && Completes(v, words[..j], f, g, limit) && words[j] !in v.entries
      ensures RunWords(v, words, f, limit) == Raises(UnknownWord(words[j]))
    {
      assert Fails(v, words[j], g, UnknownWord(words[j]), limit);
      assert AbortsAt(v, words, j, f, UnknownWord(words[j]), limit);
      assert Aborts(v, words, f, UnknownWord(words[j]), limit) by { AbortsThere(v, words, j, f, UnknownWord(words[j]), limit); }
    }
  }

  lemma AbortsThere(v: Vocabulary, words: seq<string>, j: nat, f: Forth, e: ForthError, limit: nat)
    requires Closed(v) && j < |words| && AbortsAt(v, words, j, f, e, limit)
    ensures Aborts(v, words, f, e, limit)
  {
    hide AbortsAt;
  }

  class ForthService {
    const memory: array<int>
    const dataStack: DownwardStack
    const returnStack: DownwardStack
    var registers: Regs
    var halted: bool
    var dictionary: map<string, ForthWord>
    var colonDefs: map<string, seq<string>>

    /** Wire to the shared data path, with the minimal word set. */
    constructor (memory: array<int>, dataStack: DownwardStack, returnStack: DownwardStack)
      requires memory.Length == MEMORY_SIZE && dataStack != returnStack
      requires dataStack.memory == memory && returnStack.memory == memory
      requires dataStack.base == DATA_STACK_BASE && dataStack.floor == DATA_STACK_BASE - DATA_STACK_SIZE
      requires returnStack.base == RETURN_STACK_BASE && returnStack.floor == RETURN_STACK_BASE - RETURN_STACK_SIZE
      requires dataStack.Valid() && returnStack.Valid()
      ensures Valid() && this.memory == memory && this.dataStack == dataStack && this.returnStack == returnStack
      ensures Vocabulary(dictionary, colonDefs) == Vocabulary(Minimal(PRIMITIVES), map[])
      ensures registers == Regs(map[]) && !halted
    {
      this.memory, this.dataStack, this.returnStack := memory, dataStack, returnStack;
      registers, halted := Regs(map[]), false;
      dictionary, colonDefs := OTHERS, map[];
      new;
      for i := 0 to |PRIMITIVES|
        invariant Valid() && dictionary == Minimal(PRIMITIVES[..i]) && colonDefs == map[]
        invariant registers == Regs(map[]) && !halted
      {
        assert PRIMITIVES[..i + 1][..i] == PRIMITIVES[..i];
        if Shared(PRIMITIVES[i]) {
          dictionary := dictionary[WordName(PRIMITIVES[i]) := Primitive(PRIMITIVES[i])];
        }
      }
      assert PRIMITIVES[..|PRIMITIVES|] == PRIMITIVES;
    }

    ghost predicate Valid()
      reads this, dataStack, returnStack
    {
      && memory.Length == MEMORY_SIZE
      && dataStack != returnStack
      && dataStack.memory == memory && returnStack.memory == memory
      && dataStack.base == DATA_STACK_BASE && dataStack.floor == DATA_STACK_BASE - DATA_STACK_SIZE
      && returnStack.base == RETURN_STACK_BASE && returnStack.floor == RETURN_STACK_BASE - RETURN_STACK_SIZE
      && dataStack.Valid() && returnStack.Valid()
      && Closed(Vocabulary(dictionary, colonDefs))
    }

    ghost function State(): Forth
      reads this, dataStack, returnStack, memory
      requires Valid()
    {
      Forth(Data(memory[..DICTIONARY_SIZE], dataStack.Contents(), returnStack.Contents(), [], []), registers, halted)
    }

    method PushData(value: int) returns (r: Outcome)
      requires Valid()
      modifies memory, dataStack`pointer
      ensures Valid() && Did(OnStack(old(State()), Push(value, old(State()).d.ds)), r, State())
    {
      ghost var before := memory[..];
      StackAtDepth(memory[..], dataStack.pointer, dataStack.base);
      var pushed := dataStack.Push(value);
      if pushed.Err? {
        return Err(Machine(pushed.error));
      }
      StackAtFrame(before, memory[..], returnStack.pointer, returnStack.base);
      assert memory[..DICTIONARY_SIZE] == before[..DICTIONARY_SIZE];
      return Ok(());
    }

    method PopData() returns (r: Result<int, ForthError>)
      requires Valid()
      modifies dataStack`pointer
      ensures Valid() && Popped(old(State()), r, State())
      ensures r.Ok? ==> dataStack.pointer == old(dataStack.pointer) + 1
    {
      var popped := dataStack.Pop();
      return if popped.Ok? then Ok(popped.value) else Err(Machine(popped.error));
    }

    method PeekData() returns (r: Result<int, ForthError>)
      requires Valid()
      ensures r.Ok? <==> State().d.ds.Push?
      ensures r.Ok? ==> r.value == State().d.ds.top
      ensures r.Err? ==> r.error == Machine(StackUnderflow)
    {
      var top := dataStack.Peek();
      return if top.Ok? then Ok(top.value) else Err(Machine(top.error));
    }

    /** Neither stack holds more than its region. */
    lemma Bounded()
      requires Valid()
      ensures Depth(State().d.ds) <= DATA_STACK_SIZE && Depth(State().d.rs) <= RETURN_STACK_SIZE
    {
      StackAtDepth(memory[..], dataStack.pointer, dataStack.base);
      StackAtDepth(memory[..], returnStack.pointer, returnStack.base);
    }

    /** Three pushes, one after the other. */
    method PushThree(x: int, y: int, z: int) returns (r: Outcome)
      requires Valid()
      modifies memory, dataStack`pointer
      ensures Valid() && Did(OnStack(old(State()), Push(z, Push(y, Push(x, old(State()).d.ds)))), r, State())
    {
      hide State, Valid;
      ghost var s := State().d.ds;
      assert Depth(Push(y, Push(x, s))) == 2 + Depth(s);
      r := PushData(x);
      if r.Ok? {
        r := PushData(y);
        if r.Ok? {
          r := PushData(z);
        }
      }
    }

    // ---- stack words ----

    method Dup() returns (r: Outcome)
      requires Valid()
      modifies memory, dataStack`pointer
      ensures Valid() && Did(Rearrange(DUP, old(State())), r, State())
    {
      hide State, Valid;
      Bounded();
      var a :- PeekData();
      r := PushData(a);
    }

    method Drop() returns (r: Outcome)
      requires Valid()
      modifies dataStack`pointer
      ensures Valid() && Did(Rearrange(DROP, old(State())), r, State())
    {
      hide State, Valid;
      Bounded();
      var _ :- PopData();
      return Ok(());
    }

    method Swap() returns (r: Outcome)
      requires Valid()
      modifies memory, dataStack`pointer
      ensures Valid() && Did(Rearrange(SWAP, old(State())), r, State())
    {
      hide State, Valid;
      Bounded();
      var a :- PopData();
      var b :- PopData();
      r := PushData(a);
      if r.Ok? {
        r := PushData(b);
      }
    }

    method Over() returns (r: Outcome)
      requires Valid()
      modifies memory, dataStack`pointer
      ensures Valid() && Did(Rearrange(OVER, old(State())), r, State())
    {
      hide State, Valid;
      Bounded();
      var b :- PopData();
      var a :- PeekData();
      r := PushData(b);
      if r.Ok? {
        r := PushData(a);
      }
    }

    method Rot() returns (r: Outcome)
      requires Valid()
      modifies memory, dataStack`pointer
      ensures Valid() && Did(Rearrange(ROT, old(State())), r, State())
    {
      hide State, Valid;
      Bounded();
      var c :- PopData();
      var b :- PopData();
      var a :- PopData();
      r := PushThree(b, c, a);
    }

    method NegRot() returns (r: Outcome)
      requires Valid()
      modifies memory, dataStack`pointer
      ensures Valid() && Did(Rearrange(NROT, old(State())), r, State())
    {
      hide State, Valid;
      Bounded();
      var c :- PopData();
      var b :- PopData();
      var a :- PopData();
      r := PushThree(c, a, b);
    }

    method Nip() returns (r: Outcome)
      requires Valid()
      modifies memory, dataStack`pointer
      ensures Valid() && Did(Rearrange(NIP, old(State())), r, State())
    {
      hide State, Valid;
      Bounded();
      var a :- PopData();
      var _ :- PopData();
      r := PushData(a);
    }

    method Tuck() returns (r: Outcome)
      requires Valid()
      modifies memory, dataStack`pointer
      ensures Valid() && Did(Rearrange(TUCK, old(State())), r, State())
    {
      hide State, Valid;
      Bounded();
      var a :- PopData();
      var b :- PopData();
      r := PushThree(a, b, a);
    }

    // ---- arithmetic, comparisons and logic ----

    /** `_binop`: pop `b`, then `a`, and push the result. */
    method Binop(p: Prim) returns (r: Outcome)
      requires Valid()
      modifies memory, dataStack`pointer
      ensures Valid() && Did(ApplyBinary(p, old(State())), r, State())
    {
      hide State, Valid, BinaryOp;
      Bounded();
      var b :- PopData();
      var a :- PopData();
      r := PushData(BinaryOp(p, a, b));
    }

    /** The words that replace the top value. */
    method Monop(p: Prim) returns (r: Outcome)
      requires Valid() && IsUnary(p)
      modifies memory, dataStack`pointer
      ensures Valid() && Did(ApplyUnary(p, old(State())), r, State())
    {
      hide State, Valid, UnaryOp;
      Bounded();
      var a :- PopData();
      UnaryDefined(p, a);
      r := PushData(UnaryOp(p, a).value);
    }

    // ---- the return stack ----

    method PushReturn(value: int) returns (r: Outcome)
      requires Valid()
      modifies memory, returnStack`pointer
      ensures Valid()
      ensures var f := old(State());
        Did(if Depth(f.d.rs) < RETURN_STACK_SIZE then Fine(f.(d := f.d.(rs := Push(value, f.d.rs)))) else OVERFLOW,
            r, State())
    {
      ghost var before := memory[..];
      StackAtDepth(memory[..], returnStack.pointer, returnStack.base);
      var pushed := returnStack.Push(value);
      if pushed.Err? {
        return Err(Machine(pushed.error));
      }
      StackAtFrame(before, memory[..], dataStack.pointer, dataStack.base);
      assert memory[..DICTIONARY_SIZE] == before[..DICTIONARY_SIZE];
      return Ok(());
    }

    method PopReturn() returns (r: Result<int, ForthError>)
      requires Valid()
      modifies returnStack`pointer
      ensures Valid()
      ensures var f := old(State());
        if f.d.rs.Empty? then r == Err(Machine(StackUnderflow))
        else r == Ok(f.d.rs.top) && State() == f.(d := f.d.(rs := f.d.rs.rest))
    {
      var popped := returnStack.Pop();
      return if popped.Ok? then Ok(popped.value) else Err(Machine(popped.error));
    }

    method ToR() returns (r: Outcome)
      requires Valid()
      modifies memory, dataStack`pointer, returnStack`pointer
      ensures Valid() && Did(OnReturnStack(TOR, old(State())), r, State())
    {
      hide State, Valid;
      var a :- PopData();
      r := PushReturn(a);
    }

    method FromR() returns (r: Outcome)
      requires Valid()
      modifies memory, dataStack`pointer, returnStack`pointer
      ensures Valid() && Did(OnReturnStack(FROMR, old(State())), r, State())
    {
      hide State, Valid;
      var a :- PopReturn();
      r := PushData(a);
    }

    method RFetch() returns (r: Outcome)
      requires Valid()
      modifies memory, dataStack`pointer
      ensures Valid() && Did(OnReturnStack(RFETCH, old(State())), r, State())
    {
      var top := returnStack.Peek();
      if top.Err? {
        return Err(Machine(top.error));
      }
      r := PushData(top.value);
    }

    /** `_exit`: `IP` comes back from the return stack. */
    method Exit() returns (r: Outcome)
      requires Valid()
      modifies this`registers, returnStack`pointer
      ensures Valid() && Did(OnReturnStack(EXIT, old(State())), r, State())
    {
      var ip :- PopReturn();
      registers := Bind(registers, Reg(IP), ip);
      return Ok(());
    }

    // ---- memory ----

    /** `@`: a Python list read anywhere in memory. */
    method Fetch() returns (r: Outcome)
      requires Valid()
      modifies memory, dataStack`pointer
      ensures Valid() && Did(OnMemory(FETCH, old(State())), r, State())
      ensures Fetched(old(State()), old(memory[..]), r, State())
    {
      Bounded();
      ghost var f := State();
      var address :- PopData();
      var k := if address < 0 then address + memory.Length else address;
      if k < 0 || k >= memory.Length {
        return Err(Machine(BadIndex));
      }
      assert InBlock(f.d, address) ==> f.d.low[address] == memory[k];
      r := PushData(memory[k]);
    }

    /** `_store`: a Python list write anywhere in memory. */
    method Store() returns (r: Outcome)
      requires Valid()
      modifies memory, dataStack`pointer
      ensures Valid() && Did(OnMemory(STOREW, old(State())), r, State())
      ensures Stored(old(State()), old(memory[..]), r, memory[..])
      ensures r.Ok? ==> dataStack.pointer == old(dataStack.pointer) + 2 && returnStack.pointer == old(returnStack.pointer)
    {
      var address :- PopData();
      var value :- PopData();
      var k := if address < 0 then address + memory.Length else address;
      if k < 0 || k >= memory.Length {
        return Err(Machine(BadIndex));
      }
      ghost var before := memory[..];
      memory[k] := value;
      if k < DICTIONARY_SIZE {
        StoredBelow(before, k, value, dataStack.pointer, returnStack.pointer);
      }
      return Ok(());
    }

    /** A store below the stack regions changes neither stack. */
    static lemma StoredBelow(mem: seq<int>, k: nat, value: int, dsp: int, rsp: int)
      requires |mem| == MEMORY_SIZE && k < DICTIONARY_SIZE
      requires DICTIONARY_SIZE <= dsp <= DATA_STACK_BASE && DATA_STACK_BASE <= rsp <= RETURN_STACK_BASE
      ensures StackAt(mem[k := value], dsp, DATA_STACK_BASE) == StackAt(mem, dsp, DATA_STACK_BASE)
      ensures StackAt(mem[k := value], rsp, RETURN_STACK_BASE) == StackAt(mem, rsp, RETURN_STACK_BASE)
      ensures mem[k := value][..DICTIONARY_SIZE] == mem[..DICTIONARY_SIZE][k := value]
    {
      StackAtFrame(mem, mem[k := value], dsp, DATA_STACK_BASE);
      StackAtFrame(mem, mem[k := value], rsp, RETURN_STACK_BASE);
    }

    /** `/` and `MOD`. */
    method Divide(w: ForthWord) returns (r: Outcome)
      requires Valid()
      modifies memory, dataStack`pointer
      ensures Valid() && Did(ApplyDivision(w, old(State())), r, State())
    {
      hide State, Valid, FloorQuotient, FloorRemainder;
      Bounded();
      var b :- PopData();
      var a :- PopData();
      if b == 0 {
        return Err(ZeroDivision);
      }
      r := PushData(if w.Quotient? then FloorQuotient(a, b) else FloorRemainder(a, b));
    }

    // ---- running words ----

    /** A primitive of the dictionary, called. */
    method Call(p: Prim) returns (r: Outcome)
      requires Valid() && Shared(p)
      modifies this`registers, this`halted, memory, dataStack`pointer, returnStack`pointer
      ensures Valid() && Did(Perform(p, old(State())), r, State())
      ensures p == FETCH ==> Fetched(old(State()), old(memory[..]), r, State())
      ensures p == STOREW ==> Stored(old(State()), old(memory[..]), r, memory[..])
      ensures p == STOREW && r.Ok? ==>
        dataStack.pointer == old(dataStack.pointer) + 2 && returnStack.pointer == old(returnStack.pointer)
    {
      hide State, Valid, Rearrange, OnStack, ApplyUnary, ApplyBinary, OnMemory, OnReturnStack, Did, Fetched, Stored;
      if IsShuffle(p) {
        r := CallShuffle(p);
      } else if IsUnary(p) {
        r := Monop(p);
      } else if IsBinary(p) {
        r := Binop(p);
      } else if p == FETCH {
        r := Fetch();
      } else if p == STOREW {
        r := Store();
      } else if p == BYE {
        r := Bye();
      } else if p == TOR {
        r := ToR();
      } else if p == FROMR {
        r := FromR();
      } else if p == RFETCH {
        r := RFetch();
      } else {
        r := Exit();
      }
    }

    method CallShuffle(p: Prim) returns (r: Outcome)
      requires Valid() && IsShuffle(p)
      modifies memory, dataStack`pointer
      ensures Valid() && Did(Rearrange(p, old(State())), r, State())
    {
      hide State, Valid, Rearrange, Did;
      if p == DUP {
        r := Dup();
      } else if p == DROP {
        r := Drop();
      } else if p == SWAP {
        r := Swap();
      } else if p == OVER {
        r := Over();
      } else if p == ROT {
        r := Rot();
      } else if p == NROT {
        r := NegRot();
      } else if p == NIP {
        r := Nip();
      } else {
        r := Tuck();
      }
    }

    /** `_bye`. */
    method Bye() returns (r: Outcome)
      requires Valid()
      modifies this`halted
      ensures Valid() && Did(Fine(old(State()).(halted := true)), r, State())
    {
      halted := true;
      return Ok(());
    }

    /** `add_colon_def`: nothing is looked up yet. */
    method AddColonDef(name: string, code: seq<string>)
      requires Valid()
      modifies this`dictionary, this`colonDefs
      ensures Valid() && State() == old(State())
      ensures Vocabulary(dictionary, colonDefs) == WithColon(old(Vocabulary(dictionary, colonDefs)), name, code)
    {
      colonDefs := colonDefs[name := code];
      dictionary := dictionary[name := Definition(name)];
    }

    /** `_execute_colon`: look each word up now and call it, with `limit` nested calls to go. */
    method ExecuteColon(name: string, limit: nat) returns (r: Outcome)
      requires Valid() && name in colonDefs
      modifies this`registers, this`halted, memory, dataStack`pointer, returnStack`pointer
      ensures Valid()
      ensures Did(RunWords(Vocabulary(dictionary, colonDefs), colonDefs[name], old(State()), limit), r, State())
      ensures Told(Vocabulary(dictionary, colonDefs), colonDefs[name], old(State()), limit, r, State())
      decreases limit
    {
      hide State, Perform, Told, ApplyDivision;
      ToldBy(Vocabulary(dictionary, colonDefs), colonDefs[name], State(), limit);
      ghost var v := Vocabulary(dictionary, colonDefs);
      var words := colonDefs[name];
      ghost var whole := RunWords(v, words, State(), limit);
      assert words[0..] == words;
      for i := 0 to |words|
        invariant Valid()
        invariant whole.OutOfBlock? || whole == RunWords(v, words[i..], State(), limit)
      {
        var word := words[i];
        ghost var answer := RunName(v, word, State(), limit);
        assert words[i..][0] == word && words[i..][1..] == words[i + 1..];
        if word !in dictionary {
          r := Err(UnknownWord(word));
        } else {
          match dictionary[word]
          case Primitive(p) => r := Call(p);
          case Placeholder => r := Ok(());
          case NeedsArgument => r := Err(MissingArgument);
          case Quotient => r := Divide(Quotient);
          case Remainder => r := Divide(Remainder);
          case Definition(n) =>
            if limit == 0 {
              r := Err(ForthError.RecursionLimit);
            } else {
              r := ExecuteColon(n, limit - 1);
            }
        }
        assert Did(answer, r, State());
        if r.Err? {
          return;
        }
      }
      return Ok(());
    }
  }
}
