# Cedar-to-WebAssembly policy compiler: a verified model of the compiler core

This project models the core of a compiler that turns one Cedar policy into a
WebAssembly module. The module exports an `evaluate` function that returns a decision
code.

The compiler is a pipeline of three stages:

- **Lowering.** The policy's condition expression is compiled, in post order, into a flat
  stack IR. The entry function is assembled as
  `[effect, NoDecision, <condition>, IfThenElse, Return]`.
- **Optimisation.** The passes are gated by level: constant folding, dead-code
  elimination and instruction combining. Only dead-code elimination does anything yet.
- **Code generation.** Each IR instruction becomes one WebAssembly instruction. The
  instructions that need an entity store (attribute read, attribute test and membership)
  are rejected instead. The body is closed with `end` and wrapped in five sections: type,
  function, memory, export and code.

A facade ties the three stages together. It tags each stage's failure with its own error
kind.

The modules follow the Rust files:

| module | file | what it holds |
|---|---|---|
| `Wrappers` | `wrappers.dfy` | `Option` and `Result` |
| `Runtime` | `runtime.dfy` | decision codes, runtime helper indices, memory constants |
| `Types` | `types.dfy` | value-kind to WebAssembly type mapping, entry signature |
| `Lowering` | `lowering.dfy` | expression syntax, the IR, the lowering |
| `Passes` | `passes.dfy` | the individual optimisation passes |
| `Optimization` | `optimization.dfy` | the level-gated pass pipeline |
| `Codegen` | `codegen.dfy` | instruction translation, sections, the generator |
| `CompilerFacade` | `compiler.dfy` | the `Compiler` and its error tagging |

Two modules state what the emitted code does:

- `WasmSemantics` is a small operand-stack semantics for the emitted instructions. It
  follows chapter 4 of the WebAssembly Core Specification 2.0. In particular, `select`
  pops the condition, then val_2, then val_1, and keeps val_1 when the condition is
  non-zero (section 4.4.4).
- `PolicyEvaluation` uses that semantics for two theorems:
  - The assembled entry function returns the effect's decision code when the condition's
    value is non-zero, and the `NoDecision` code otherwise. Permit or forbid is never
    swapped with `NoDecision`.
  - Optimisation never changes what a body returns.

Where the Rust code mutates state, the model does too:

- The lowering appends to an `InstructionBuffer` object.
- Dead-code elimination runs a position search loop.
- `WasmCodeGen.Generate` appends sections to the generator's `sections` field.
- `CompileFunction` loops over the IR, appending to a `FunctionBuilder`.
- `Compiler.WithOptLevel` updates `optLevel`.

Each of these methods is proved equal to a pure specification function: `Compile`,
`Assemble`, `DeadCodeElimination`, `FunctionCode`, `ModuleSections` and `Pipeline`. The
properties are proved about those functions.

## Model

| member | source | states |
|---|---|---|
| `Runtime.Code` | src/wasm/runtime.rs:5-14 | A decision's code lies in -1..2. It is negative exactly for `NoDecision`. |
| `Runtime.CodeRoundTrip` | src/wasm/runtime.rs:5-14 | Every decision is recovered from its code: NoDecision = -1, Deny = 0, Permit = 1, Error = 2. |
| `Runtime.CodesDistinct` | src/wasm/runtime.rs:5-14 | Two decisions with the same code are the same decision, so `NoDecision` is not `Deny`. |
| `Runtime.RuntimeFunctionIndices` | src/wasm/runtime.rs:18-23 | `STRING_EQ`, `GET_ATTRIBUTE`, `HAS_ATTRIBUTE` and `ENTITY_IN` are 0, 1, 2 and 3, pairwise distinct. |
| `Runtime.MemoryLayout` | src/wasm/runtime.rs:26-35 | `INITIAL_PAGES` <= `MAX_PAGES`. The string pool starts inside the initial memory of one 64 KiB page. |
| `Types.ToValType` | src/wasm/types.rs:20-27 | `Int` is the only kind mapped to i64; every other kind is i32. |
| `Types.ToValTypes` | src/wasm/codegen.rs:30-33 | Mapping a list of kinds keeps its length, and each element is mapped by `ToValType`. |
| `Types.NewSignature` | src/wasm/types.rs:38-40 | The signature stores the given params and results unchanged. |
| `Types.PolicyEntry` | src/wasm/types.rs:45-50 | The entry signature's value types are () -> (i32). |
| `Lowering.CompileSucceedsIffSupported` | src/ast/lowering.rs:139-234 | Lowering an expression succeeds if and only if every node is in the supported subset. |
| `Lowering.RejectionNamesConstruct` | src/ast/lowering.rs:149-233 | A lowering error is the rejection message of a sub-expression that is itself unsupported. The messages are the operator and expression-kind messages. |
| `Lowering.CompiledPushesOne` | src/ast/lowering.rs:139-234 | From any stack height d, an expression's code never underflows and ends at height d + 1. |
| `Lowering.CompiledHasValuesOnly` | src/ast/lowering.rs:139-246 | An expression's code holds no `Return` and no decision marker. |
| `Lowering.CompiledEntityInstructions` | src/ast/lowering.rs:149-204 | An expression's code holds `GetAttribute`, `HasAttribute` or `In` if and only if the expression reads or tests an attribute or tests membership. |
| `Lowering.Assemble` | src/ast/lowering.rs:56-98 | Assembly succeeds exactly when the condition lowers; otherwise it fails with the condition's error. |
| `Lowering.AssembledLayout` | src/ast/lowering.rs:64-93 | The output has 4 more instructions than the condition's code. It starts with `Permit` or `Forbid` (by effect), then `NoDecision`. Then comes exactly the condition's code, then `IfThenElse`, `Return`. |
| `Lowering.AssembledReturnsLast` | src/ast/lowering.rs:56-98 | The entry function goes from an empty stack to an empty stack. Its only `Return` is its last instruction. |
| `Lowering.AssembledDepth` | src/ast/lowering.rs:56-98 | The two decision pushes, the condition's code, the select and the return together go from an empty stack to an empty stack. |
| `Lowering.AssembledReturnPositions` | src/ast/lowering.rs:56-98 | In the assembled instruction list the last instruction is `Return` and no earlier one is. |
| `Lowering.InstructionBuffer.constructor` | src/ast/lowering.rs:57 | A new buffer is empty. |
| `Lowering.InstructionBuffer.Push` | src/ast/lowering.rs:75 | Push appends exactly one instruction. |
| `Lowering.CompileLiteral` | src/ast/lowering.rs:238-246 | Appends exactly one push with the same payload for a `Bool`, `Long` or `String` literal, and `PushBool(false)` for any other literal. |
| `Lowering.CompileExpr` | src/ast/lowering.rs:139-234 | Only appends: the earlier buffer contents are a prefix afterwards, even on failure. It succeeds exactly when `Compile` does, with the same error. On success it appends exactly the post-order code `Compile(e)`. |
| `Lowering.FromPolicy` | src/ast/lowering.rs:56-98 | The result is `Assemble(effect, condition)`. A lowering error gives no module. |
| `Lowering.FromTemplate` | src/ast/lowering.rs:102-135 | The same assembly as for a policy. |
| `Passes.ConstantFolding` | src/optimization/passes.rs:6-10 | Returns the module unchanged. |
| `Passes.InstructionCombining` | src/optimization/passes.rs:28-32 | Returns the module unchanged. |
| `Passes.FirstReturn` | src/optimization/passes.rs:15-19 | The result is a `Return` position with no `Return` before it. It is None exactly when there is no `Return`. |
| `Passes.DeadCodeElimination` | src/optimization/passes.rs:13-25 | The output is a prefix of the input. Without `Return` it is the input. With a `Return`, the output ends in `Return` and holds no earlier one. |
| `Passes.PositionOfReturn` | src/optimization/passes.rs:15-20 | The loop finds the first `Return`, or None. |
| `Passes.RunDeadCodeElimination` | src/optimization/passes.rs:13-25 | The search-and-truncate method computes `DeadCodeElimination`. |
| `Passes.DeadCodeEliminationIdempotent` | src/optimization/passes.rs:13-25 | Applying the pass twice equals applying it once. |
| `Passes.DeadCodeEliminationKeepsUpToFirstReturn` | src/optimization/passes.rs:15-21 | Exactly the instructions up to and including the first `Return` are kept. |
| `Passes.DeadCodeEliminationExample` | src/optimization/passes.rs:39-53 | `[PushBool(true), Return, PushBool(false)]` becomes `[PushBool(true), Return]`. |
| `Optimization.Optimize` | src/optimization/mod.rs:8-23 | The result's instructions are a prefix of the input's. Level 0 returns the module unchanged. |
| `Optimization.OptimizeLevelsAgree` | src/optimization/mod.rs:11-20 | Every level from 1 up gives the same result, which is dead-code elimination. In particular, levels above 2 behave as level 2. |
| `Optimization.OptimizeIdempotent` | src/optimization/mod.rs:8-23 | Optimising an optimised module at the same level changes nothing. |
| `Optimization.OptimizeKeepsAssembledPolicy` | src/optimization/mod.rs:8-23 | An assembled policy comes out of the optimiser unchanged, at every level. |
| `Codegen.Translate` | src/wasm/codegen.rs:85-187 | Fails exactly for `GetAttribute`, `HasAttribute` and `In`. Otherwise it gives exactly one instruction. |
| `Codegen.TranslateKeepsArity` | src/wasm/codegen.rs:85-187 | A translated instruction pops and pushes as many operands as the IR instruction it comes from. |
| `Codegen.TranslateReturn` | src/wasm/codegen.rs:156-158 | Only the IR `Return` translates to `return`, and nothing translates to `end`. |
| `Codegen.DecisionConstants` | src/wasm/codegen.rs:160-169 | `Permit`, `Forbid` and `NoDecision` become `i32.const` 1, 0 and -1. |
| `Codegen.TranslateAll` | src/wasm/codegen.rs:74-76 | Succeeds exactly when no entity instruction occurs. The result then has the same length, and each element translates the IR instruction at that position. |
| `Codegen.TranslateAllFirstError` | src/wasm/codegen.rs:74-76 | The error is that of the first instruction without a translation. Every instruction before it translates. |
| `Codegen.TranslateAllErrorMessage` | src/wasm/codegen.rs:172-183 | A failed translation carries one of the three "not yet implemented" messages. |
| `Codegen.FunctionCode` | src/wasm/codegen.rs:71-82 | The body is the translations in IR order plus one `end`: IR length + 1 instructions, `end` last. It fails exactly when an entity instruction occurs. |
| `Codegen.ModuleSections` | src/wasm/codegen.rs:25-68 | Generation fails exactly when the body does, with the body's error. |
| `Codegen.ModuleSectionsErrorMessage` | src/wasm/codegen.rs:172-183 | Generation fails only with one of the three "not yet implemented" messages. |
| `Codegen.ModuleSectionsLayout` | src/wasm/codegen.rs:27-64 | Failure happens iff the IR holds an entity instruction. On success the layout is well formed (`EntryModuleWellFormed`: section order, type and export indices, memory limits; not WebAssembly validation). There are five sections in increasing id order: type, function, memory, export, code. The one type is () -> (i32). The function uses type 0. Memory is [1, 16] pages. `evaluate` is exported as func 0 and `memory` as memory 0. The body is `FunctionCode`. |
| `Codegen.FunctionBuilder.constructor` | src/wasm/codegen.rs:72 | A new function has no instructions. |
| `Codegen.FunctionBuilder.Instruction` | src/wasm/codegen.rs:79 | Appends one instruction. |
| `Codegen.WasmCodeGen.constructor` | src/wasm/codegen.rs:18-22 | A new generator has an empty module. |
| `Codegen.WasmCodeGen.CompileInstruction` | src/wasm/codegen.rs:85-187 | On success it appends exactly `Translate(inst)`. On failure the function is unchanged and the error is `Translate`'s. |
| `Codegen.WasmCodeGen.CompileFunction` | src/wasm/codegen.rs:71-82 | The loop computes `FunctionCode`, so the first failing instruction aborts the whole function. |
| `Codegen.WasmCodeGen.Generate` | src/wasm/codegen.rs:25-68 | On failure the module is unchanged and the error is the body's. On success exactly the five sections of `ModuleSections` are appended, and the whole module is returned. |
| `WasmSemantics.TranslatePreservesDepth` | src/wasm/codegen.rs:85-187 | Translated code has the same stack-height behaviour as the IR code. |
| `PolicyEvaluation.EffectDecision` | src/wasm/codegen.rs:161-166 | `permit` stands for the Permit decision and `forbid` for Deny. |
| `PolicyEvaluation.PolicyDecides` | src/ast/lowering.rs:59-62 | Take a policy whose condition lowers and needs no entity store. Its generated body returns the effect's code when the condition's value is non-zero, and the `NoDecision` code otherwise. |
| `PolicyEvaluation.PolicyNeverSwaps` | src/ast/lowering.rs:90-92 | The returned code is -1 iff the condition is zero. It is 1 only for permit and 0 only for forbid, and never the Error code. |
| `PolicyEvaluation.ForbidTrueDenies` | src/ast/lowering.rs:64-93 | A `forbid` policy whose whole condition is the literal `true` returns 0 (Deny). |
| `PolicyEvaluation.PermitFalseComparisonAbstains` | src/ast/lowering.rs:59-62 | A `permit` policy whose whole condition is `2 < 1` returns -1 (NoDecision). |
| `PolicyEvaluation.DeadCodeEliminationPreservesOutcome` | src/optimization/passes.rs:12-25 | The removed code is unreachable: the body still translates and returns the same result. |
| `PolicyEvaluation.OptimizePreservesOutcome` | src/optimization/mod.rs:8-23 | At any level, optimisation keeps the body translatable and keeps what it returns. |
| `CompilerFacade.ClampLevel` | src/compiler.rs:41-44 | The result is at most 2 and at most the request, and it is either the request or 2. |
| `CompilerFacade.Pipeline` | src/compiler.rs:56-76 | A lowering error becomes `CompilationError` with its message. Every other failure is a `WasmError` after a successful lowering, and it carries the generator's message for the (optionally optimised) IR. |
| `CompilerFacade.Compiler.constructor` | src/compiler.rs:36-38 | The default level is 1. |
| `CompilerFacade.Compiler.WithOptLevel` | src/compiler.rs:41-44 | The level becomes `min(level, 2)`. |
| `CompilerFacade.Compiler.CompileLowered` | src/compiler.rs:59-75 | Lower, then optimise only above level 0, then generate with a fresh generator, tagging each stage's error. This equals `Pipeline`. |
| `CompilerFacade.Compiler.CompileTemplate` | src/compiler.rs:56-76 | Equals `Pipeline` on the template's assembly. |
| `CompilerFacade.Compiler.CompilePolicy` | src/compiler.rs:85-104 | Equals `Pipeline` on the policy's assembly, so it is identical to `CompileTemplate` on the same effect and condition. |
| `CompilerFacade.Compiler.CompileStr` | src/compiler.rs:47-53 | A parse failure is a `ParseError` with the parser's message. Otherwise the result is what `CompileTemplate` gives on the parsed template. |
| `CompilerFacade.ClampExamples` | src/compiler.rs:117-127 | A new compiler has level 1; requesting 2 gives 2 and requesting 10 gives 2. |
| `CompilerFacade.AssembledEntityInstructions` | src/wasm/codegen.rs:172-183 | The assembled policy holds an entity instruction iff its condition uses the entity store. |
| `CompilerFacade.PipelineOutcome` | src/compiler.rs:56-76 | The stage that rejects a policy depends only on its condition. An unsupported construct gives `CompilationError` with the lowering message. Otherwise an attribute read, attribute test or membership test gives `WasmError`. Everything else compiles. A `WasmError` carries the generator's message, one of the three "not yet implemented" messages. |
| `CompilerFacade.PipelineLevelIndependent` | src/compiler.rs:63-67 | The optimisation level never changes what a policy compiles to. |
| `CompilerFacade.CompiledPolicyDecides` | src/compiler.rs:85-104 | End to end, at any level: a supported condition without entity-store use compiles to a five-section module with a consistent layout (section order, type and export indices, memory limits; not WebAssembly validation). Its entry body returns the effect's code when the condition is non-zero, and `NoDecision` otherwise. |

## Left out

- The debug writes to `/tmp/compiler_debug.log` and `/tmp/instructions_*.txt` in the lowering are left out. They are file I/O whose errors are ignored, and they do not affect results.
- Byte encoding is left out. `Generate` returns the module as its sections rather than the bytes that `wasm_encoder` produces. The binary format and the `\0asm` header are that library's concern. `page_size_log2` is always None, so it is omitted from the memory type.
- The policy language's parser is left out. `Compiler.CompileStr` takes it as a parameter `parse`. The Rust code formats the parser's error with `{:?}`; here the parser's message is taken as already formatted.
- Only the parts of a policy that the lowering reads are modelled: its effect and its condition expression. Ids, annotations and template slots are dropped. The condition is the whole expression the parser hands over: the scope constraints conjoined with the `when` and `unless` clauses, not only a `when` body. The parser is not part of this model, so that conjunction is taken as given.
- `Expr.Other(kind)` stands for every expression kind the lowering rejects. `kind` is its printed form. Operator names in error messages are the Rust `Debug` names.
- `compile_file` and `CompilerError::IoError` are not modelled, because they are file I/O. The command-line binary and the usage example are not modelled either.
- `Compiler.WithOptLevel`: the Rust method consumes the compiler and returns it. Here it updates the compiler in place.
- `Compiler.CompileLowered` is the body shared by `compile_template` and `compile_policy`. The Rust code repeats it in each.
- The model does not claim that emitted modules pass WebAssembly validation. It also does not claim that nested expressions evaluate as the policy language intends. Three reasons:
  - `Equal` always becomes `i64.eq`, even on i32 booleans.
  - `select` requires operands of one type.
  - A nested `if` pushes test, then, else, which is not the order `select` consumes.
- `WasmSemantics` is untyped for the same reason: it runs these bodies as written.
- `PolicyDecides` is stated in terms of whatever value the condition's code leaves. It says nothing about the Cedar meaning of that value.
- `WasmSemantics` covers only the instructions the generator emits.
