/** What a run costs, word by word. */
module Costs {
  import opened Wrappers
  import opened Isa
  import opened Layout
  import opened Stacks
  import opened AbstractMachine
  import opened Words
  import opened Primitives
  import opened Evaluation

  /** The steps of the words of definition `i` from the `j`-th on, up to its exit, added up as they are
      evaluated; eight for a `LIT` and the cell it takes. */
  function BodyCost(p: Program, i: nat, j: nat, d: Data, depth: nat): nat
    requires Matched(p) && i < |p.words| && p.words[i].ColonWord?
    decreases |p.words[i].words| - j
  {
    if j >= |p.words[i].words| then 0
    else
      match Lookup(p.words[..i], p.words[i].words[j])
      case None => 0
      case Some(r) =>
        if IsPrim(p, r, EXIT) then 0
        else if IsPrim(p, r, LIT) then
          match CellOf(p, i, ItemsOf(p.words[i].words)[j + 1])
          case None => 0
          case Some(v) => 8 + BodyCost(p, i, j + 2, d.(ds := Push(v, d.ds)), depth)
        else
          match EvalWord(p, r, d, depth)
          case Finished(d', n) => n + BodyCost(p, i, j + 1, d', depth)
          case _ => 0
  }

  lemma {:induction false} ThreadCost(p: Program, i: nat, j: nat, d: Data, depth: nat)
    requires Matched(p) && i < |p.words| && p.words[i].ColonWord? && j <= |p.words[i].words| + 1
    requires EvalThread(p, i, ItemsOf(p.words[i].words), j, d, depth).Finished?
    ensures EvalThread(p, i, ItemsOf(p.words[i].words), j, d, depth).cost == BodyCost(p, i, j, d, depth) + 6
    decreases |p.words[i].words| + 1 - j
  {
    hide EvalWord, Lookup;
    var items := ItemsOf(p.words[i].words);
    var r := Lookup(p.words[..i], items[j].name).value;
    if IsPrim(p, r, EXIT) {
    } else if IsPrim(p, r, LIT) {
      ThreadCost(p, i, j + 2, d.(ds := Push(CellOf(p, i, items[j + 1]).value, d.ds)), depth);
    } else {
      ThreadCost(p, i, j + 1, EvalWord(p, r, d, depth).d, depth);
    }
  }

  /** A colon call that comes back costs fifteen steps more than the words it gets to: four to reach it,
      five to enter it, six to exit. */
  lemma ColonCost(p: Program, i: nat, d: Data, depth: nat)
    requires Matched(p) && i < |p.words| && p.words[i].ColonWord?
    requires EvalWord(p, i, d, depth).Finished?
    ensures EvalWord(p, i, d, depth).cost == 15 + BodyCost(p, i, 0, d.(rs := Empty), depth + Depth(d.rs) + 1)
  {
    hide EvalThread, BodyCost, Meaning, RoutineCost, Lookup;
    ThreadCost(p, i, 0, d.(rs := Empty), depth + Depth(d.rs) + 1);
  }

  /** `*` costs ten steps and six for each unit of its multiplier; there is no bound on what a run can
      cost short of its operands. */
  lemma MulCost(p: Program, i: nat, d: Data, depth: nat)
    requires Matched(p) && i < |p.words| && IsPrim(p, i, MUL) && EvalWord(p, i, d, depth).Finished?
    ensures d.ds.Push? && d.ds.top >= 0 && EvalWord(p, i, d, depth).cost == 10 + 6 * d.ds.top
  {
    hide Depth;
  }
}
