/** What a compiled policy computes. The assembled entry function pushes the effect's
    decision code, then the `NoDecision` code, then the condition's value, and `select`
    keeps the effect exactly when the condition is non-zero: permit and forbid are never
    swapped with `NoDecision`. Dead-code elimination does not change what a body returns. */
module PolicyEvaluation {

  import opened Wrappers
  import L = Lowering
  import Runtime
  import Passes
  import Optimization
  import opened Codegen
  import opened WasmSemantics

  /** The decision a policy's effect stands for: `permit` grants, `forbid` denies. */
  function EffectDecision(effect: L.Effect): (d: Runtime.Decision)
    ensures d == Runtime.Permit <==> effect == L.Effect.Permit
    ensures d == Runtime.Deny <==> effect == L.Effect.Forbid
  {
    match effect
    case Permit => Runtime.Permit
    case Forbid => Runtime.Deny
  }

  /** A condition the pipeline can turn into WebAssembly: it lowers, and it needs no entity
      store. */
  predicate Evaluable(condition: L.Expr) {
    L.Compile(condition).Ok? && !L.UsesEntityStore(condition)
  }

  /** The WebAssembly code of an evaluable condition. */
  function ConditionCode(condition: L.Expr): (ws: seq<WasmInstr>)
    requires Evaluable(condition)
    ensures StraightLine(ws) && WDepth(ws, 0) == Some(1)
  {
    var c := L.Compile(condition).value;
    L.CompiledEntityInstructions(condition);
    L.CompiledHasValuesOnly(condition);
    L.CompiledPushesOne(condition, 0);
    TranslatePreservesDepth(c, 0);
    TranslateStraightLine(c);
    TranslateAll(c).value
  }

  /** The one value an evaluable condition's code leaves on the stack. */
  function ConditionValue(condition: L.Expr): int
    requires Evaluable(condition)
  {
    var ws := ConditionCode(condition);
    RunFrame(ws, [], []);
    Run(ws, Running([])).stack[0]
  }

  /** The condition's code pushes its value on top of whatever stack it starts from. */
  lemma ConditionRuns(condition: L.Expr, s: seq<int>)
    requires Evaluable(condition)
    ensures Run(ConditionCode(condition), Running(s)) == Running(s + [ConditionValue(condition)])
  {
    var ws := ConditionCode(condition);
    RunFrame(ws, s, []);
    RunFrame(ws, [], []);
    var t := Run(ws, Running([])).stack;
    assert s + [] == s;
    assert t == [t[0]];
  }

  /** The two instructions in front of the condition become the constants of the effect's
      code and the `NoDecision` code, which they push in that order. */
  lemma HeadRuns(effect: L.Effect)
    ensures TranslateAll([L.EffectInstruction(effect), L.Instruction.NoDecision])
            == Ok([I32Const(Runtime.Code(EffectDecision(effect))), I32Const(Runtime.Code(Runtime.NoDecision))])
    ensures Run([I32Const(Runtime.Code(EffectDecision(effect))), I32Const(Runtime.Code(Runtime.NoDecision))], Running([]))
            == Running([Runtime.Code(EffectDecision(effect)), Runtime.Code(Runtime.NoDecision)])
  {
    var head := [L.EffectInstruction(effect), L.Instruction.NoDecision];
    var ce, cn := Runtime.Code(EffectDecision(effect)), Runtime.Code(Runtime.NoDecision);
    var wh: seq<WasmInstr> := [I32Const(ce), I32Const(cn)];
    assert Translate(head[0]) == Ok(wh[0]) by {
      match effect
      case Permit =>
      case Forbid =>
    }
    TranslateAllOfAll(head, wh);
    assert wh[1..] == [I32Const(cn)] && wh[1..][1..] == [];
    assert Step(wh[0], Running([])) == Running([ce]);
    assert Step(wh[1], Running([ce])) == Running([ce, cn]);
    assert Run(wh[1..], Running([ce])) == Running([ce, cn]);
  }

  /** `select` then `return` on [val_1, val_2, c] returns val_1 if c is non-zero, else val_2. */
  lemma TailRuns(v1: int, v2: int, c: int)
    ensures TranslateAll([L.Instruction.IfThenElse, L.Instruction.Return]) == Ok([Select, Return])
    ensures Run([Select, Return], Running([v1, v2, c])) == Returned(if c != 0 then v1 else v2)
  {
    var tail := [L.Instruction.IfThenElse, L.Instruction.Return];
    var ws: seq<WasmInstr> := [Select, Return];
    TranslateAllOfAll(tail, ws);
    var v := if c != 0 then v1 else v2;
    var ret: seq<WasmInstr> := [Return];
    assert ret[1..] == [];
    assert ws[1..] == ret;
    assert [v1, v2, c][..0] == [];
    assert Step(Select, Running([v1, v2, c])) == Running([v]);
    assert Run(ret, Running([v])) == Returned(v);
  }

  /** The generated body of an assembled policy: the two constants, the condition's code,
      `select`, `return` and `end`. */
  lemma AssembledBody(effect: L.Effect, condition: L.Expr)
    requires Evaluable(condition)
    ensures FunctionCode(L.Assemble(effect, condition).value.entry).Ok?
    ensures FunctionCode(L.Assemble(effect, condition).value.entry).value.instructions
            == [I32Const(Runtime.Code(EffectDecision(effect))), I32Const(Runtime.Code(Runtime.NoDecision))]
               + ConditionCode(condition) + [Select, Return] + [End]
  {
    var c := L.Compile(condition).value;
    var head := [L.EffectInstruction(effect), L.Instruction.NoDecision];
    var tail := [L.Instruction.IfThenElse, L.Instruction.Return];
    assert L.Assemble(effect, condition).value.entry.instructions == head + c + tail;
    HeadRuns(effect);
    TailRuns(0, 0, 0);
    L.CompiledEntityInstructions(condition);
    L.AppendHasEntityInstruction(head, c);
    L.AppendHasEntityInstruction(head + c, tail);
    TranslateAllAppend(head + c, tail);
    TranslateAllAppend(head, c);
  }

  /** Running the two constants, a condition's code, `select`, `return` and `end`. */
  lemma AssembledBodyRuns(ce: Runtime.i32, cn: Runtime.i32, condition: L.Expr)
    requires Evaluable(condition)
    ensures Run([I32Const(ce), I32Const(cn)] + ConditionCode(condition) + [Select, Return] + [End], Running([]))
            == Returned(if ConditionValue(condition) != 0 then ce else cn)
  {
    var wh: seq<WasmInstr> := [I32Const(ce), I32Const(cn)];
    var wc, wt := ConditionCode(condition), [Select, Return];
    var v := ConditionValue(condition);
    assert wh[1..] == [I32Const(cn)] && wh[1..][1..] == [];
    assert Step(wh[0], Running([])) == Running([ce]);
    assert Step(wh[1], Running([ce])) == Running([ce, cn]);
    assert Run(wh[1..], Running([ce])) == Running([ce, cn]);
    TailRuns(ce, cn, v);
    RunAppend(wh + wc + wt, [End], Running([]));
    RunAppend(wh + wc, wt, Running([]));
    RunAppend(wh, wc, Running([]));
    ConditionRuns(condition, [ce, cn]);
    assert [ce, cn] + [v] == [ce, cn, v];
    RunStopped([End], Returned(if v != 0 then ce else cn));
  }

  /** The generated body of a policy whose condition is evaluable returns the effect's
      decision code when the condition's value is non-zero and the `NoDecision` code
      otherwise. */
  lemma PolicyDecides(effect: L.Effect, condition: L.Expr)
    requires Evaluable(condition)
    ensures FunctionCode(L.Assemble(effect, condition).value.entry).Ok?
    ensures Run(FunctionCode(L.Assemble(effect, condition).value.entry).value.instructions, Running([]))
            == Returned(Runtime.Code(if ConditionValue(condition) != 0 then EffectDecision(effect) else Runtime.NoDecision))
  {
    AssembledBody(effect, condition);
    AssembledBodyRuns(Runtime.Code(EffectDecision(effect)), Runtime.Code(Runtime.NoDecision), condition);
  }

  /** The returned code is the effect's decision or `NoDecision`, never the other effect
      and never `Error`: 1 only for a permit policy, 0 only for a forbid policy, and -1
      exactly when the condition is zero. */
  lemma PolicyNeverSwaps(effect: L.Effect, condition: L.Expr)
    requires Evaluable(condition)
    ensures FunctionCode(L.Assemble(effect, condition).value.entry).Ok?
    ensures var st := Run(FunctionCode(L.Assemble(effect, condition).value.entry).value.instructions, Running([]));
      && st.Returned?
      && (st.result == Runtime.Code(Runtime.NoDecision) <==> ConditionValue(condition) == 0)
      && (st.result == Runtime.Code(Runtime.Permit) ==> effect == L.Effect.Permit)
      && (st.result == Runtime.Code(Runtime.Deny) ==> effect == L.Effect.Forbid)
      && st.result != Runtime.Code(Runtime.Error)
  {
    PolicyDecides(effect, condition);
  }

  /** What the generated body of a policy with an evaluable condition returns. */
  function PolicyOutcome(effect: L.Effect, condition: L.Expr): State
    requires Evaluable(condition)
  {
    AssembledBody(effect, condition);
    Run(FunctionCode(L.Assemble(effect, condition).value.entry).value.instructions, Running([]))
  }

  /** A `forbid` policy whose whole condition is `true` returns the deny code 0. */
  lemma ForbidTrueDenies()
    ensures Evaluable(L.Lit(L.Literal.Bool(true)))
    ensures PolicyOutcome(L.Effect.Forbid, L.Lit(L.Literal.Bool(true))) == Returned(0)
  {
    var e := L.Lit(L.Literal.Bool(true));
    var ws: seq<WasmInstr> := [I32Const(1)];
    TranslateAllOfAll(L.Compile(e).value, ws);
    assert ws[1..] == [];
    assert Run(ws, Running([])) == Running([1]);
    PolicyDecides(L.Effect.Forbid, e);
  }

  /** `2 < 1` lowers to its two pushes and the comparison. */
  lemma ComparisonLowers()
    ensures L.Compile(L.BinaryApp(L.Less, L.Lit(L.Long(2)), L.Lit(L.Long(1))))
            == Ok([L.PushInt(2), L.PushInt(1), L.LessThan])
    ensures !L.UsesEntityStore(L.BinaryApp(L.Less, L.Lit(L.Long(2)), L.Lit(L.Long(1))))
  {
    assert L.Compile(L.Lit(L.Long(2))) == Ok([L.PushInt(2)]);
    assert L.Compile(L.Lit(L.Long(1))) == Ok([L.PushInt(1)]);
    assert [L.PushInt(2)] + [L.PushInt(1)] + [L.LessThan] == [L.PushInt(2), L.PushInt(1), L.LessThan];
  }

  /** A `permit` policy whose whole condition is `2 < 1` returns the `NoDecision` code -1. */
  lemma PermitFalseComparisonAbstains()
    ensures Evaluable(L.BinaryApp(L.Less, L.Lit(L.Long(2)), L.Lit(L.Long(1))))
    ensures PolicyOutcome(L.Effect.Permit, L.BinaryApp(L.Less, L.Lit(L.Long(2)), L.Lit(L.Long(1)))) == Returned(-1)
  {
    var e := L.BinaryApp(L.Less, L.Lit(L.Long(2)), L.Lit(L.Long(1)));
    ComparisonLowers();
    ComparisonValue();
    PolicyDecides(L.Effect.Permit, e);
  }

  /** The code of `2 < 1` leaves 0. */
  lemma ComparisonValue()
    ensures Evaluable(L.BinaryApp(L.Less, L.Lit(L.Long(2)), L.Lit(L.Long(1))))
    ensures ConditionValue(L.BinaryApp(L.Less, L.Lit(L.Long(2)), L.Lit(L.Long(1)))) == 0
  {
    ComparisonLowers();
    var e := L.BinaryApp(L.Less, L.Lit(L.Long(2)), L.Lit(L.Long(1)));
    var ws: seq<WasmInstr> := [I64Const(2), I64Const(1), I64LtS];
    TranslateAllOfAll(L.Compile(e).value, ws);
    assert ConditionCode(e) == ws;
    ComparisonRuns();
  }

  /** `i64.const 2; i64.const 1; i64.lt_s` leaves 0. */
  lemma ComparisonRuns()
    ensures Run([I64Const(2), I64Const(1), I64LtS], Running([])) == Running([0])
  {
    var ws: seq<WasmInstr> := [I64Const(2), I64Const(1), I64LtS];
    assert ws[1..] == [I64Const(1), I64LtS] && ws[1..][1..] == [I64LtS] && ws[1..][1..][1..] == [];
    assert Step(I64Const(2), Running([])) == Running([2]);
    assert Step(I64Const(1), Running([2])) == Running([2, 1]);
    assert [2, 1][..0] == [];
    assert Step(I64LtS, Running([2, 1])) == Running([0]);
  }

  // ---------------------------------------------------------------------------
  // Optimisation keeps what a body returns
  // ---------------------------------------------------------------------------

  /** The body of a function, started on an empty stack. */
  function Outcome(f: L.LoweredFunction): State
    requires FunctionCode(f).Ok?
  {
    Run(FunctionCode(f).value.instructions, Running([]))
  }

  /** A body cut just after a `return` returns what the whole body returns. */
  lemma ReturnCutOutcome(a: seq<L.Instruction>, b: seq<L.Instruction>)
    requires TranslateAll(a + b).Ok? && |a| > 0 && a[|a| - 1] == L.Instruction.Return
    ensures TranslateAll(a).Ok?
    ensures Run(TranslateAll(a).value + [End], Running([])) == Run(TranslateAll(a + b).value + [End], Running([]))
  {
    TranslateAllAppend(a, b);
    var wa, wb := TranslateAll(a).value, TranslateAll(b).value;
    assert Translate(a[|a| - 1]) == Ok(wa[|a| - 1]);
    EndsInReturn(wa, Running([]));
    var stop := Run(wa, Running([]));
    assert TranslateAll(a + b).value + [End] == wa + (wb + [End]);
    RunAppend(wa, wb + [End], Running([]));
    RunStopped(wb + [End], stop);
    RunAppend(wa, [End], Running([]));
    RunStopped([End], stop);
  }

  /** Dropping the code after the first `Return` keeps the body translatable and keeps what
      it returns: that code is never reached. */
  lemma DeadCodeEliminationPreservesOutcome(m: L.LoweredModule)
    requires FunctionCode(m.entry).Ok?
    ensures FunctionCode(Passes.DeadCodeElimination(m).entry).Ok?
    ensures Outcome(Passes.DeadCodeElimination(m).entry) == Outcome(m.entry)
  {
    var code := m.entry.instructions;
    var r := Passes.FirstReturn(code);
    if r.Some? {
      var k := r.value;
      Passes.DeadCodeEliminationKeepsUpToFirstReturn(m, k);
      assert code == code[..k + 1] + code[k + 1..];
      ReturnCutOutcome(code[..k + 1], code[k + 1..]);
    }
  }

  /** Optimisation at any level keeps the body translatable and keeps what it returns. */
  lemma OptimizePreservesOutcome(m: L.LoweredModule, level: Optimization.u8)
    requires FunctionCode(m.entry).Ok?
    ensures FunctionCode(Optimization.Optimize(m, level).entry).Ok?
    ensures Outcome(Optimization.Optimize(m, level).entry) == Outcome(m.entry)
  {
    if level >= 1 {
      Optimization.OptimizeLevelsAgree(m, level, level);
      DeadCodeEliminationPreservesOutcome(m);
    }
  }
}
