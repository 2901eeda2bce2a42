/** The assembler preserves meaning: running a source line by line on the emulator's own state is
    running the program it assembles to, over all of memory and with every error. */
module AssemblerSimulation {
  import opened Wrappers
  import opened Isa
  import opened Cpu
  import opened Assembler
  import opened Machine
  import opened SourceMachine

  /** The line whose code starts at `pc`, counting from the first line. */
  function LineOf(lines: seq<Line>, pc: int): Option<Line> {
    if lines == [] then None
    else if pc == 0 && lines[0].mnemonic.Some? then Some(lines[0])
    else LineOf(lines[1..], pc - Size(lines[0]))
  }

  /** Running the line at the program counter: on to a new state, an error, or control is at no
      line's start. */
  datatype Turn = Onward(m: State) | Raises(error: MachineError) | Astray

  function SourceTurn(lines: seq<Line>, labels: Labels, m: State): Turn
    requires Sound(m)
  {
    if ListIndex(m.pc, TotalSize(lines)).None? then Raises(BadIndex)
    else if m.pc < 0 || LineOf(lines, m.pc).None? then Astray
    else
      match Asks(LineOf(lines, m.pc).value, labels, m.pc, m.regs)
      case Blank => Astray
      case Senseless => Astray
      case Does(e, size) =>
        match Apply(e, m.(pc := m.pc + size))
        case Ok(m') => Onward(m')
        case Err(error) => Raises(error)
  }

  /** Why a run by lines has stopped: it need not have, or it halted, raised, or went astray. */
  datatype Stop = Going | Halted | Raised(error: MachineError) | Strayed

  datatype Trace = Trace(m: State, lines: nat, stop: Stop)

  lemma TurnSound(lines: seq<Line>, labels: Labels, m: State)
    requires Sound(m) && SourceTurn(lines, labels, m).Onward?
    ensures Sound(SourceTurn(lines, labels, m).m)
  {
    hide Asks;
  }

  /** Run up to `n` lines from `m`. */
  function SourceRun(lines: seq<Line>, labels: Labels, m: State, n: nat): (t: Trace)
    requires Sound(m)
    ensures Sound(t.m) && t.lines <= n
    decreases n
  {
    if m.halted then Trace(m, 0, Halted)
    else if n == 0 then Trace(m, 0, Going)
    else
      match SourceTurn(lines, labels, m)
      case Raises(error) => Trace(m, 0, Raised(error))
      case Astray => Trace(m, 0, Strayed)
      case Onward(m') =>
        TurnSound(lines, labels, m);
        var t := SourceRun(lines, labels, m', n - 1);
        t.(lines := t.lines + 1)
  }

  // ---- control strays only into the middle of an expansion ----

  lemma {:induction false} StrayedMeans(lines: seq<Line>, pc: int) returns (i: nat)
    requires 0 <= pc < TotalSize(lines) && LineOf(lines, pc).None?
    ensures i < |lines| && Size(lines[i]) == 2 && pc == TotalSize(lines[..i]) + 1
  {
    var size := Size(lines[0]);
    if pc < size {
      i := 0;
      assert lines[..0] == [];
    } else {
      var k := StrayedMeans(lines[1..], pc - size);
      i := k + 1;
      TotalSizeTail(lines, i);
      assert lines[1..][..i - 1] == lines[1..][..k];
    }
  }

  // ---- one line ----

  lemma {:induction false} LineOfPlaced(asm: Assembly, lines: seq<Line>, address: int, pc: int)
    requires Placed(asm, lines, address) && LineOf(lines, pc - address).Some?
    ensures LineAt(asm, LineOf(lines, pc - address).value, pc)
    ensures LineOf(lines, pc - address).value.mnemonic.Some?
    decreases |lines|
  {
    PlacedCons(asm, lines, address);
    hide Placed, LineAt;
    if !(pc == address && lines[0].mnemonic.Some?) {
      LineOfPlaced(asm, lines[1..], address + Size(lines[0]), pc);
    }
  }

  lemma OneStep(program: seq<InstructionDto>, m: State)
    requires Sound(m) && !m.halted
    ensures Steps(program, m, 1) == Step(program, m)
  {
    hide Step;
    StepSound(program, m);
    if Step(program, m).Ok? {
      assert Steps(program, Step(program, m).value, 0) == Step(program, m);
    }
  }

  /** A line of two instructions. */
  lemma PairTurns(asm: Assembly, line: Line, m: State)
    requires Sound(m) && !m.halted && LineAt(asm, line, m.pc)
    requires line.mnemonic == Some(Set) || line.mnemonic == Some(Mov)
    ensures Asks(line, asm.labels, m.pc, m.regs).Does? && Asks(line, asm.labels, m.pc, m.regs).size == 2
    ensures Steps(asm.program, m, 2) == Apply(Asks(line, asm.labels, m.pc, m.regs).effect, m.(pc := m.pc + 2))
    ensures Steps(asm.program, m, 2).Ok?
  {
    hide Asks, EffectAt, LineAt;
    PairAsks(asm, line, m.pc, m.regs);
    var e := Asks(line, asm.labels, m.pc, m.regs).effect;
    var m1 := m.(pc := m.pc + 1, regs := Bind(m.regs, e.r, 0));
    assert Step(asm.program, m) == Ok(m1);
    assert Bind(m1.regs, e.r, e.value) == Bind(m.regs, e.r, e.value);
    OneStep(asm.program, m1);
  }

  /** A turn of the source machine is one or two steps of the emulator, or the step that raises. */
  lemma TurnSteps(asm: Assembly, lines: seq<Line>, m: State) returns (steps: nat)
    requires Placed(asm, lines, 0) && |asm.program| == TotalSize(lines) && Sound(m) && !m.halted
    ensures var turn := SourceTurn(lines, asm.labels, m);
      && (turn.Onward? ==> 1 <= steps <= 2 && Steps(asm.program, m, steps) == Ok(turn.m))
      && (turn.Raises? ==> Step(asm.program, m) == Err(turn.error))
  {
    hide Asks, Apply, Decode, LineAt, Placed, Steps, LineOf;
    steps := 1;
    OneStep(asm.program, m);
    if ListIndex(m.pc, TotalSize(lines)).Some? && m.pc >= 0 && LineOf(lines, m.pc).Some? {
      var line := LineOf(lines, m.pc).value;
      LineOfPlaced(asm, lines, 0, m.pc);
      if line.mnemonic.value.Real? {
        RealLineAsks(asm, line, m.pc, m.regs);
      } else {
        LineMakesSense(asm, line, m.pc, m.regs);
        if line.mnemonic.value != Set && line.mnemonic.value != Mov {
          NoUnknown(asm, line, m.pc);
        }
        PairTurns(asm, line, m);
        steps := 2;
      }
    }
  }

  lemma NoUnknown(asm: Assembly, line: Line, pc: int)
    requires LineAt(asm, line, pc) && line.mnemonic.Some?
    ensures !line.mnemonic.value.Unknown?
  {
  }

  // ---- whole runs ----

  /** What the emulator does on the trace of a run by lines. */
  ghost predicate Matched(program: seq<InstructionDto>, m: State, t: Trace, steps: nat)
    requires Sound(m)
  {
    && t.lines <= steps <= 2 * t.lines
    && Steps(program, m, steps) == Ok(t.m)
    && Sound(t.m)
    && (t.stop.Halted? <==> t.m.halted)
    && (t.stop.Raised? ==> Step(program, t.m) == Err(t.stop.error))
  }

  lemma {:induction false} PlacedSimulates(asm: Assembly, lines: seq<Line>, m: State, n: nat) returns (steps: nat)
    requires Placed(asm, lines, 0) && |asm.program| == TotalSize(lines) && Sound(m)
    ensures Matched(asm.program, m, SourceRun(lines, asm.labels, m, n), steps)
    decreases n
  {
    hide Step, SourceTurn, Placed;
    steps := 0;
    if !m.halted && n > 0 {
      var first := TurnSteps(asm, lines, m);
      var turn := SourceTurn(lines, asm.labels, m);
      if turn.Onward? {
        TurnSound(lines, asm.labels, m);
        var rest := PlacedSimulates(asm, lines, turn.m, n - 1);
        StepsAdd(asm.program, m, first, rest);
        steps := first + rest;
      }
    }
  }

  /** For every source that assembles, every machine state and every number of lines: the assembled
      program reaches the very state the run by lines reaches, in one or two instructions a line;
      one halts when the other does, and an error of a line is the error of the next instruction. */
  lemma AssemblySimulates(lines: seq<Line>, m: State, n: nat) returns (steps: nat)
    requires Assemble(lines).Ok? && Sound(m)
    ensures Matched(Assemble(lines).value.program, m, SourceRun(lines, Assemble(lines).value.labels, m, n), steps)
  {
    hide SourceRun, Assemble, Matched;
    AssemblePlaces(lines);
    steps := PlacedSimulates(Assemble(lines).value, lines, m, n);
  }

  /** Control has come to the second instruction of a `SET` or `MOV`, or the program counter is negative. */
  ghost predicate BetweenLines(lines: seq<Line>, pc: int) {
    pc < 0 || exists i :: 0 <= i < |lines| && SplitAt(lines, i, pc)
  }

  predicate SplitAt(lines: seq<Line>, i: nat, pc: int)
    requires i < |lines|
  {
    (lines[i].mnemonic == Some(Set) || lines[i].mnemonic == Some(Mov)) && pc == TotalSize(lines[..i]) + 1
  }

  lemma TurnStrays(asm: Assembly, lines: seq<Line>, m: State)
    requires Placed(asm, lines, 0) && |asm.program| == TotalSize(lines) && Sound(m)
    requires SourceTurn(lines, asm.labels, m).Astray?
    ensures BetweenLines(lines, m.pc)
  {
    hide Asks, Apply, LineAt, Placed, LineOf, Size, TotalSize;
    if m.pc >= 0 {
      if LineOf(lines, m.pc).Some? {
        LineOfPlaced(asm, lines, 0, m.pc);
        LineMakesSense(asm, LineOf(lines, m.pc).value, m.pc, m.regs);
        SomethingAsked(LineOf(lines, m.pc).value, asm.labels, m.pc, m.regs);
      } else {
        var i := StrayedMeans(lines, m.pc);
        TwoInstructions(lines[i]);
        assert SplitAt(lines, i, m.pc);
      }
    }
  }

  lemma TwoInstructions(line: Line)
    requires Size(line) == 2
    ensures line.mnemonic == Some(Set) || line.mnemonic == Some(Mov)
  {
  }

  lemma SomethingAsked(line: Line, labels: Labels, pc: int, regs: Regs)
    requires line.mnemonic.Some?
    ensures !Asks(line, labels, pc, regs).Blank?
  {
    hide UnaryEffect, BinaryEffect;
  }

  lemma {:induction false} PlacedStops(asm: Assembly, lines: seq<Line>, m: State, n: nat)
    requires Placed(asm, lines, 0) && |asm.program| == TotalSize(lines) && Sound(m)
    ensures var t := SourceRun(lines, asm.labels, m, n);
      && (t.stop.Going? ==> t.lines == n)
      && (t.stop.Strayed? ==> BetweenLines(lines, t.m.pc))
    decreases n
  {
    hide SourceTurn, Placed, BetweenLines;
    if !m.halted && n > 0 {
      var turn := SourceTurn(lines, asm.labels, m);
      if turn.Onward? {
        TurnSound(lines, asm.labels, m);
        PlacedStops(asm, lines, turn.m, n - 1);
      } else if turn.Astray? {
        TurnStrays(asm, lines, m);
      }
    }
  }

  /** And a run by lines goes all the way: it runs as many lines as it may, unless it halts, raises, or control
      comes to the middle of a `SET` or `MOV` or to a negative index. */
  lemma SourceStops(lines: seq<Line>, m: State, n: nat)
    requires Assemble(lines).Ok? && Sound(m)
    ensures var t := SourceRun(lines, Assemble(lines).value.labels, m, n);
      && (t.stop.Going? ==> t.lines == n)
      && (t.stop.Strayed? ==> BetweenLines(lines, t.m.pc))
  {
    hide SourceRun, Assemble, BetweenLines;
    AssemblePlaces(lines);
    PlacedStops(Assemble(lines).value, lines, m, n);
  }

  /** So a run by lines that halts or raises decides what `run` answers, for every budget. */
  lemma SourceDecides(lines: seq<Line>, m: State, n: nat) returns (steps: nat)
    requires Assemble(lines).Ok? && Sound(m)
    ensures var program := Assemble(lines).value.program;
      var t := SourceRun(lines, Assemble(lines).value.labels, m, n);
      && t.lines <= steps <= 2 * t.lines
      && (t.stop.Halted? ==> forall maxSteps: nat ::
            Run(program, m, maxSteps) == if steps <= maxSteps then Ok(t.m) else Err(StepLimit))
      && (t.stop.Raised? ==> forall maxSteps: nat ::
            Run(program, m, maxSteps) == if steps < maxSteps then Err(t.stop.error) else Err(StepLimit))
  {
    hide SourceRun, Assemble, Step, Steps, Run;
    steps := AssemblySimulates(lines, m, n);
    var program := Assemble(lines).value.program;
    var t := SourceRun(lines, Assemble(lines).value.labels, m, n);
    forall maxSteps: nat
      ensures t.stop.Halted? ==> Run(program, m, maxSteps) == if steps <= maxSteps then Ok(t.m) else Err(StepLimit)
      ensures t.stop.Raised? ==>
        Run(program, m, maxSteps) == if steps < maxSteps then Err(t.stop.error) else Err(StepLimit)
    {
      if t.stop.Halted? {
        RunOfSteps(program, m, steps, maxSteps);
      } else if t.stop.Raised? {
        RunOfError(program, m, steps, maxSteps);
      }
    }
  }
}
