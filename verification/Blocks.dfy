/** Running a stretch of consecutive lines. */
module Blocks {
  import opened Wrappers
  import opened Isa
  import opened Cpu
  import opened Assembler
  import opened AbstractMachine
  import opened SourceMachine

  /** Part-way through a block: still inside it, gone from it, about to be refused, or without a
      meaning there. */
  datatype Progress =
    | Inside(vm: Vm, cost: nat) | Gone(vm: Vm, cost: nat) | Refused(vm: Vm, cost: nat, fault: Fault) | Stopped

  /** Run one more line. */
  function Then(at: Progress, line: Line, labels: Labels): Progress {
    if !at.Inside? then at
    else
      match RunLine(line, labels, at.vm)
      case Falls(vm') => Inside(vm', at.cost + Size(line))
      case Goes(vm') => Gone(vm', at.cost + 1)
      case Faults(fault) => Refused(at.vm, at.cost, fault)
      case Strays => Stopped
  }

  function RunBlock(lines: seq<Line>, labels: Labels, at: Progress): Progress {
    if lines == [] then at else RunBlock(lines[1..], labels, Then(at, lines[0], labels))
  }

  lemma {:induction false} GoneStays(lines: seq<Line>, labels: Labels, at: Progress)
    requires !at.Inside?
    ensures RunBlock(lines, labels, at) == at
  {
    if lines != [] {
      GoneStays(lines[1..], labels, at);
    }
  }

  /** A block's lines run as their assembled instructions do, at the cost the block adds up. */
  lemma {:induction false} BlockRuns(asm: Assembly, lines: seq<Line>, vm: Vm, cost: nat)
    requires Placed(asm, lines, vm.pc) && !vm.halted
    ensures var r := RunBlock(lines, asm.labels, Inside(vm, cost));
      && (!r.Stopped? ==> r.cost >= cost && Steps(asm.program, vm, r.cost - cost) == Ok(r.vm))
      && (r.Inside? ==> r.vm.pc == vm.pc + TotalSize(lines) && !r.vm.halted)
      && (r.Refused? ==> Raises(asm.program, r.vm, r.fault))
    decreases |lines|
  {
    hide Step, RunLine, LineAt, Placed, Raises;
    if lines == [] {
      assert Steps(asm.program, vm, 0) == Ok(vm);
    } else {
      PlacedCons(asm, lines, vm.pc);
      LineRuns(asm, lines[0], vm);
      match RunLine(lines[0], asm.labels, vm)
      case Falls(vm1) =>
        BlockRuns(asm, lines[1..], vm1, cost + Size(lines[0]));
        var r := RunBlock(lines, asm.labels, Inside(vm, cost));
        if !r.Stopped? {
          StepsAdd(asm.program, vm, Size(lines[0]), r.cost - cost - Size(lines[0]));
        }
      case Goes(vm1) => GoneStays(lines[1..], asm.labels, Gone(vm1, cost + 1));
      case Faults(fault) =>
        GoneStays(lines[1..], asm.labels, Refused(vm, cost, fault));
        assert Steps(asm.program, vm, 0) == Ok(vm);
      case Strays => GoneStays(lines[1..], asm.labels, Stopped);
    }
  }
}
