/** The compiler facade: lower, optimise when the level is above 0, generate; each stage's
    failure is tagged with its own error kind. The parser is a parameter. */
module CompilerFacade {

  import opened Wrappers
  import L = Lowering
  import Runtime
  import Optimization
  import Codegen
  import WasmSemantics
  import PolicyEvaluation

  /** The failures of the pipeline, tagged by stage. */
  datatype CompilerError =
    | ParseError(message: string)
    | CompilationError(message: string)
    | WasmError(message: string)

  /** The highest optimisation level; higher requests are clamped to it. */
  const MAX_OPT_LEVEL: Optimization.u8 := 2

  function ClampLevel(level: Optimization.u8): (r: Optimization.u8)
    ensures r <= MAX_OPT_LEVEL
    ensures r <= level && (r == level || r == MAX_OPT_LEVEL)
  {
    if level < MAX_OPT_LEVEL then level else MAX_OPT_LEVEL
  }

  /** What compiling a lowering result at `level` yields: the lowering error as a
      compilation error; otherwise the module generated from the IR, optimised only when
      the level is above 0, or the generator's error as a WebAssembly error. */
  function Pipeline(level: Optimization.u8, lowered: Result<L.LoweredModule, string>): (r: Result<Codegen.WasmModule, CompilerError>)
    ensures lowered.Err? ==> r == Err(CompilationError(lowered.error))
    ensures r.Err? && !r.error.CompilationError? ==> r.error.WasmError? && lowered.Ok?
    ensures lowered.Ok? ==>
      var optimized := if level > 0 then Optimization.Optimize(lowered.value, level) else lowered.value;
      Codegen.ModuleSections(optimized).Err? ==> r == Err(WasmError(Codegen.ModuleSections(optimized).error))
  {
    match lowered
    case Err(e) => Err(CompilationError(e))
    case Ok(ir) =>
      var optimized := if level > 0 then Optimization.Optimize(ir, level) else ir;
      match Codegen.ModuleSections(optimized)
      case Err(e) => Err(WasmError(e))
      case Ok(sections) => Ok(Codegen.WasmModule(sections))
  }

  class Compiler {
    var optLevel: Optimization.u8

    /** A compiler at the default level 1. */
    constructor ()
      ensures optLevel == 1
    {
      optLevel := 1;
    }

    /** Requests a level; anything above 2 is clamped to 2. */
    method WithOptLevel(level: Optimization.u8)
      modifies this
      ensures optLevel == ClampLevel(level)
    {
      optLevel := if level < MAX_OPT_LEVEL then level else MAX_OPT_LEVEL;
    }

    /** Lowers, optimises and generates; the generator is a fresh one, so the module holds
        exactly the sections of this compilation. */
    method CompileLowered(ir: Result<L.LoweredModule, string>) returns (r: Result<Codegen.WasmModule, CompilerError>)
      ensures r == Pipeline(optLevel, ir)
    {
      if ir.Err? {
        return Err(CompilationError(ir.error));
      }
      var optimized := if optLevel > 0 then Optimization.Optimize(ir.value, optLevel) else ir.value;
      var codegen := new Codegen.WasmCodeGen();
      var generated := codegen.Generate(optimized);
      if generated.Err? {
        return Err(WasmError(generated.error));
      }
      assert [] + Codegen.ModuleSections(optimized).value == Codegen.ModuleSections(optimized).value;
      r := Ok(generated.value);
    }

    method CompileTemplate(template: L.Template) returns (r: Result<Codegen.WasmModule, CompilerError>)
      ensures r == Pipeline(optLevel, L.Assemble(template.effect, template.condition))
    {
      var ir := L.FromTemplate(template);
      r := CompileLowered(ir);
    }

    /** As `CompileTemplate`, lowering the policy instead. */
    method CompilePolicy(policy: L.Policy) returns (r: Result<Codegen.WasmModule, CompilerError>)
      ensures r == Pipeline(optLevel, L.Assemble(policy.effect, policy.condition))
    {
      var ir := L.FromPolicy(policy);
      r := CompileLowered(ir);
    }

    /** Parses with `parse` (the policy language's parser, not part of this model); a parse
        failure is a parse error, anything else is what `CompileTemplate` returns. */
    method CompileStr(source: string, parse: string -> Result<L.Template, string>) returns (r: Result<Codegen.WasmModule, CompilerError>)
      ensures parse(source).Err? ==> r == Err(ParseError(parse(source).error))
      ensures parse(source).Ok? ==>
        r == Pipeline(optLevel, L.Assemble(parse(source).value.effect, parse(source).value.condition))
    {
      var parsed := parse(source);
      if parsed.Err? {
        return Err(ParseError(parsed.error));
      }
      r := CompileTemplate(parsed.value);
    }
  }

  /** The default level is 1, level 2 stays 2 and level 10 becomes 2. */
  method ClampExamples() returns (default: Optimization.u8, two: Optimization.u8, ten: Optimization.u8)
    ensures default == 1 && two == 2 && ten == 2
  {
    var c := new Compiler();
    default := c.optLevel;
    c.WithOptLevel(2);
    two := c.optLevel;
    c.WithOptLevel(10);
    ten := c.optLevel;
  }

  /** The code of a policy's condition holds an entity instruction exactly when the
      assembled entry function does. */
  lemma AssembledEntityInstructions(effect: L.Effect, condition: L.Expr)
    requires L.Compile(condition).Ok?
    ensures L.HasEntityInstruction(L.Assemble(effect, condition).value.entry.instructions)
            <==> L.UsesEntityStore(condition)
  {
    var c := L.Compile(condition).value;
    var head := [L.EffectInstruction(effect), L.Instruction.NoDecision];
    var tail := [L.Instruction.IfThenElse, L.Instruction.Return];
    assert L.Assemble(effect, condition).value.entry.instructions == head + c + tail;
    L.CompiledEntityInstructions(condition);
    L.AppendHasEntityInstruction(head, c);
    L.AppendHasEntityInstruction(head + c, tail);
    assert !L.HasEntityInstruction(head) by {
      assert forall k :: 0 <= k < |head| ==> !L.IsEntityInstruction(head[k]);
    }
    assert !L.HasEntityInstruction(tail) by {
      assert forall k :: 0 <= k < |tail| ==> !L.IsEntityInstruction(tail[k]);
    }
  }

  /** Which stage rejects a policy depends only on its condition: a construct outside the
      supported subset is a compilation error carrying the lowering message, an attribute
      read, attribute test or membership test is a WebAssembly error, and everything else
      compiles, whatever the level. A WebAssembly error carries the generator's message, which
      names the instruction that has no translation. */
  lemma PipelineOutcome(level: Optimization.u8, effect: L.Effect, condition: L.Expr)
    ensures var r := Pipeline(level, L.Assemble(effect, condition));
      && (r.Err? && r.error.CompilationError? <==> !L.Supported(condition))
      && (r.Err? && r.error.CompilationError? ==> r.error.message == L.Compile(condition).error)
      && (r.Err? && r.error.WasmError? <==> L.Supported(condition) && L.UsesEntityStore(condition))
      && (r.Err? && r.error.WasmError? ==>
            && r.error.message == Codegen.ModuleSections(L.Assemble(effect, condition).value).error
            && r.error.message in Codegen.UnimplementedMessages)
      && (r.Ok? <==> L.Supported(condition) && !L.UsesEntityStore(condition))
  {
    L.CompileSucceedsIffSupported(condition);
    if L.Compile(condition).Ok? {
      Optimization.OptimizeKeepsAssembledPolicy(effect, condition, level);
      AssembledEntityInstructions(effect, condition);
      Codegen.ModuleSectionsLayout(L.Assemble(effect, condition).value);
      if Codegen.ModuleSections(L.Assemble(effect, condition).value).Err? {
        Codegen.ModuleSectionsErrorMessage(L.Assemble(effect, condition).value);
      }
    }
  }

  /** The optimisation level never changes what a policy compiles to. */
  lemma PipelineLevelIndependent(l1: Optimization.u8, l2: Optimization.u8, effect: L.Effect, condition: L.Expr)
    ensures Pipeline(l1, L.Assemble(effect, condition)) == Pipeline(l2, L.Assemble(effect, condition))
  {
    if L.Compile(condition).Ok? {
      Optimization.OptimizeKeepsAssembledPolicy(effect, condition, l1);
      Optimization.OptimizeKeepsAssembledPolicy(effect, condition, l2);
    }
  }

  /** End to end: a policy whose condition is in the supported subset and needs no entity
      store compiles, at any level, to a module whose exported entry body returns the
      effect's decision code when the condition's value is non-zero and the `NoDecision`
      code otherwise. */
  lemma CompiledPolicyDecides(level: Optimization.u8, effect: L.Effect, condition: L.Expr)
    requires L.Supported(condition) && !L.UsesEntityStore(condition)
    ensures Pipeline(level, L.Assemble(effect, condition)).Ok?
    ensures var sections := Pipeline(level, L.Assemble(effect, condition)).value.sections;
      && Codegen.EntryModuleWellFormed(sections)
      && WasmSemantics.Run(Codegen.EntryBody(sections), WasmSemantics.Running([]))
         == WasmSemantics.Returned(Runtime.Code(
              if PolicyEvaluation.ConditionValue(condition) != 0 then PolicyEvaluation.EffectDecision(effect)
              else Runtime.NoDecision))
  {
    PipelineOutcome(level, effect, condition);
    var m := L.Assemble(effect, condition).value;
    Optimization.OptimizeKeepsAssembledPolicy(effect, condition, level);
    Codegen.ModuleSectionsLayout(m);
    PolicyEvaluation.PolicyDecides(effect, condition);
  }
}
