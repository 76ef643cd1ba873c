/** The level-gated optimisation pipeline: level 0 applies nothing, level 1 and above
    constant folding then dead-code elimination, level 2 and above also instruction
    combining. */
module Optimization {

  import opened Lowering
  import opened Passes

  /** An unsigned 8-bit integer (Rust `u8`), the type of an optimisation level. */
  type u8 = x: int | 0 <= x < 0x100

  function Optimize(m: LoweredModule, level: u8): (r: LoweredModule)
    ensures r.entry.instructions <= m.entry.instructions
    ensures level == 0 ==> r == m
  {
    var basic := if level >= 1 then DeadCodeElimination(ConstantFolding(m)) else m;
    if level >= 2 then InstructionCombining(basic) else basic
  }

  /** Every level from 1 on produces the same module, which is the dead-code eliminated one. */
  lemma OptimizeLevelsAgree(m: LoweredModule, l1: u8, l2: u8)
    requires 1 <= l1 && 1 <= l2
    ensures Optimize(m, l1) == Optimize(m, l2) == DeadCodeElimination(m)
  {
  }

  /** Optimising an optimised module again at the same level changes nothing. */
  lemma OptimizeIdempotent(m: LoweredModule, level: u8)
    ensures Optimize(Optimize(m, level), level) == Optimize(m, level)
  {
    if level >= 1 {
      DeadCodeEliminationIdempotent(m);
    }
  }

  /** The lowering of a policy is left as it is: its only `Return` is its last instruction,
      so there is no dead code to remove. */
  lemma OptimizeKeepsAssembledPolicy(effect: Effect, condition: Expr, level: u8)
    requires Assemble(effect, condition).Ok?
    ensures Optimize(Assemble(effect, condition).value, level) == Assemble(effect, condition).value
  {
    var m := Assemble(effect, condition).value;
    var code := m.entry.instructions;
    AssembledReturnsLast(effect, condition);
    DeadCodeEliminationKeepsUpToFirstReturn(m, |code| - 1);
    assert code[..|code|] == code;
  }
}
