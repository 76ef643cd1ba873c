/** The individual optimisation passes over a lowered module. Constant folding and
    instruction combining are not implemented yet and return their input; dead-code
    elimination drops everything after the first `Return`. */
module Passes {

  import opened Wrappers
  import opened Lowering

  /** Constant folding (not implemented: the module is returned as it is). */
  function ConstantFolding(m: LoweredModule): (r: LoweredModule)
    ensures r == m
  {
    m
  }

  /** Instruction combining (not implemented: the module is returned as it is). */
  function InstructionCombining(m: LoweredModule): (r: LoweredModule)
    ensures r == m
  {
    m
  }

  /** The position of the first `Return`, if there is one. */
  function FirstReturn(code: seq<Instruction>): (r: Option<nat>)
    ensures r.Some? ==> r.value < |code| && code[r.value] == Return
    ensures r.Some? ==> forall j :: 0 <= j < r.value ==> code[j] != Return
    ensures r.None? <==> Return !in code
  {
    if code == [] then None
    else if code[0] == Return then Some(0)
    else match FirstReturn(code[1..])
      case None => None
      case Some(k) => Some(k + 1)
  }

  /** Truncates the entry function just after its first `Return`; a function without
      `Return` is kept whole. The result is the shortest prefix that ends in `Return`. */
  function DeadCodeElimination(m: LoweredModule): (r: LoweredModule)
    ensures r.entry.instructions <= m.entry.instructions
    ensures Return !in m.entry.instructions ==> r == m
    ensures Return in m.entry.instructions ==>
      var out := r.entry.instructions;
      |out| > 0 && out[|out| - 1] == Return && Return !in out[..|out| - 1]
  {
    match FirstReturn(m.entry.instructions)
    case None => m
    case Some(k) => LoweredModule(LoweredFunction(m.entry.instructions[..k + 1]))
  }

  /** The position search the pass performs (`iter().position`), as a loop. */
  method PositionOfReturn(code: seq<Instruction>) returns (idx: Option<nat>)
    ensures idx == FirstReturn(code)
  {
    var k := 0;
    while k < |code|
      invariant 0 <= k <= |code|
      invariant forall j :: 0 <= j < k ==> code[j] != Return
    {
      if code[k] == Return {
        FirstReturnAt(code, k);
        return Some(k);
      }
      k := k + 1;
    }
    assert Return !in code by {
      assert code == code[..k];
    }
    return None;
  }

  /** The first `Return` is the one every earlier position lacks. */
  lemma FirstReturnAt(code: seq<Instruction>, k: nat)
    requires k < |code| && code[k] == Return
    requires forall j :: 0 <= j < k ==> code[j] != Return
    ensures FirstReturn(code) == Some(k)
  {
  }

  /** The pass as the compiler runs it: find the position, then truncate after it. */
  method RunDeadCodeElimination(m: LoweredModule) returns (r: LoweredModule)
    ensures r == DeadCodeElimination(m)
  {
    r := m;
    var idx := PositionOfReturn(m.entry.instructions);
    if idx.Some? {
      r := LoweredModule(LoweredFunction(r.entry.instructions[..idx.value + 1]));
    }
  }

  /** Running the pass twice removes nothing more. */
  lemma DeadCodeEliminationIdempotent(m: LoweredModule)
    ensures DeadCodeElimination(DeadCodeElimination(m)) == DeadCodeElimination(m)
  {
    var once := DeadCodeElimination(m);
    if Return in m.entry.instructions {
      var out := once.entry.instructions;
      FirstReturnAt(out, |out| - 1);
      assert out[..|out|] == out;
    }
  }

  /** When a `Return` is present, exactly the instructions up to and including the first
      one are kept. */
  lemma DeadCodeEliminationKeepsUpToFirstReturn(m: LoweredModule, k: nat)
    requires k < |m.entry.instructions| && m.entry.instructions[k] == Return
    requires forall j :: 0 <= j < k ==> m.entry.instructions[j] != Return
    ensures DeadCodeElimination(m).entry.instructions == m.entry.instructions[..k + 1]
  {
    FirstReturnAt(m.entry.instructions, k);
  }

  /** `[PushBool(true), Return, PushBool(false)]` loses its unreachable last instruction. */
  lemma DeadCodeEliminationExample()
    ensures DeadCodeElimination(LoweredModule(LoweredFunction([PushBool(true), Return, PushBool(false)])))
            == LoweredModule(LoweredFunction([PushBool(true), Return]))
  {
    var code := [PushBool(true), Return, PushBool(false)];
    FirstReturnAt(code, 1);
    assert code[..2] == [PushBool(true), Return];
  }
}
