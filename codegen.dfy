/** Code generation: each IR instruction becomes one WebAssembly instruction (or a hard
    error for the instructions that need the entity store), the entry body is those
    translations followed by `end`, and the module is five sections in the order that
    section 5.5 of the WebAssembly Core Specification 2.0 requires. Sections and
    instructions are abstract values here; their byte encoding is left out. */
module Codegen {

  import opened Wrappers
  import L = Lowering
  import Runtime
  import Types

  /** The WebAssembly instructions the generator emits. */
  datatype WasmInstr =
    | I32Const(n32: Runtime.i32)
    | I64Const(n64: L.i64)
    | I64Eq | I64Ne | I64LtS | I64LeS | I64GtS | I64GeS
    | I32And | I32Or | I32Eqz
    | Select
    | Return
    | End

  /** Operand-stack effect of each emitted instruction (`return` and `end` consume the
      function's one result). */
  function WasmPops(w: WasmInstr): nat {
    match w
    case I32Const(_) => 0
    case I64Const(_) => 0
    case I32Eqz => 1
    case Select => 3
    case Return => 1
    case End => 1
    case _ => 2
  }

  function WasmPushes(w: WasmInstr): nat {
    if w.Return? || w.End? then 0 else 1
  }

  // ---------------------------------------------------------------------------
  // Per-instruction translation, as a specification
  // ---------------------------------------------------------------------------

  /** One IR instruction as one WebAssembly instruction. Decisions become the constants of
      the runtime's decision codes; the three entity instructions have no translation yet. */
  function Translate(i: L.Instruction): (r: Result<WasmInstr, string>)
    ensures r.Err? <==> L.IsEntityInstruction(i)
  {
    match i
    case PushBool(b) => Ok(I32Const(if b then 1 else 0))
    case PushInt(n) => Ok(I64Const(n))
    case PushString(_) => Ok(I32Const(0))
    case Equal => Ok(I64Eq)
    case NotEqual => Ok(I64Ne)
    case LessThan => Ok(I64LtS)
    case LessThanOrEqual => Ok(I64LeS)
    case GreaterThan => Ok(I64GtS)
    case GreaterThanOrEqual => Ok(I64GeS)
    case And => Ok(I32And)
    case Or => Ok(I32Or)
    case Not => Ok(I32Eqz)
    case IfThenElse => Ok(Select)
    case Return => Ok(Return)
    case Permit => Ok(I32Const(Runtime.Code(Runtime.Permit)))
    case Forbid => Ok(I32Const(Runtime.Code(Runtime.Deny)))
    case NoDecision => Ok(I32Const(Runtime.Code(Runtime.NoDecision)))
    case GetAttribute(_) => Err("GetAttribute not yet implemented")
    case HasAttribute(_) => Err("HasAttribute not yet implemented")
    case In => Err("In operator not yet implemented")
  }

  /** A translation pops and pushes as many operands as the IR instruction it translates. */
  lemma TranslateKeepsArity(i: L.Instruction)
    requires Translate(i).Ok?
    ensures WasmPops(Translate(i).value) == L.Pops(i) && WasmPushes(Translate(i).value) == L.Pushes(i)
  {
  }

  /** Only `Return` becomes `return`, and nothing becomes `end`. */
  lemma TranslateReturn(i: L.Instruction)
    requires Translate(i).Ok?
    ensures Translate(i).value.Return? <==> i.Return?
    ensures !Translate(i).value.End?
  {
  }

  /** The decision markers become the runtime's codes 1, 0 and -1. */
  lemma DecisionConstants()
    ensures Translate(L.Instruction.Permit) == Ok(I32Const(1))
    ensures Translate(L.Instruction.Forbid) == Ok(I32Const(0))
    ensures Translate(L.Instruction.NoDecision) == Ok(I32Const(-1))
  {
  }

  /** All instructions in order; the first one without a translation aborts. */
  function TranslateAll(code: seq<L.Instruction>): (r: Result<seq<WasmInstr>, string>)
    ensures r.Ok? <==> !L.HasEntityInstruction(code)
    ensures r.Ok? ==> |r.value| == |code|
    ensures r.Ok? ==> forall k :: 0 <= k < |code| ==> Translate(code[k]) == Ok(r.value[k])
  {
    if code == [] then Ok([])
    else
      var w :- Translate(code[0]);
      var rest :- TranslateAll(code[1..]);
      Ok([w] + rest)
  }

  /** The error is that of the first instruction without a translation. */
  lemma {:induction false} TranslateAllFirstError(code: seq<L.Instruction>)
    requires TranslateAll(code).Err?
    ensures exists k :: 0 <= k < |code| && Translate(code[k]) == Err(TranslateAll(code).error)
                        && forall j :: 0 <= j < k ==> Translate(code[j]).Ok?
  {
    if Translate(code[0]).Err? {
      assert Translate(code[0]) == Err(TranslateAll(code).error);
    } else {
      TranslateAllFirstError(code[1..]);
      var k :| 0 <= k < |code[1..]| && Translate(code[1..][k]) == Err(TranslateAll(code[1..]).error)
               && forall j :: 0 <= j < k ==> Translate(code[1..][j]).Ok?;
      assert Translate(code[k + 1]) == Err(TranslateAll(code).error);
      assert forall j :: 0 <= j < k + 1 ==> Translate(code[j]).Ok? by {
        forall j | 0 <= j < k + 1 ensures Translate(code[j]).Ok? {
          if j > 0 { assert code[j] == code[1..][j - 1]; }
        }
      }
    }
  }

  /** The messages of the three instructions that have no translation. */
  const UnimplementedMessages: set<string> :=
    {"GetAttribute not yet implemented", "HasAttribute not yet implemented", "In operator not yet implemented"}

  /** Translation only ever fails with one of those messages. */
  lemma TranslateAllErrorMessage(code: seq<L.Instruction>)
    requires TranslateAll(code).Err?
    ensures TranslateAll(code).error in UnimplementedMessages
  {
    TranslateAllFirstError(code);
    var k :| 0 <= k < |code| && Translate(code[k]) == Err(TranslateAll(code).error);
  }

  /** Translating a concatenation translates its parts. */
  lemma {:induction false} TranslateAllAppend(a: seq<L.Instruction>, b: seq<L.Instruction>)
    requires TranslateAll(a + b).Ok?
    ensures TranslateAll(a).Ok? && TranslateAll(b).Ok?
    ensures TranslateAll(a + b).value == TranslateAll(a).value + TranslateAll(b).value
  {
    if a == [] {
      assert a + b == b;
    } else {
      assert (a + b)[0] == a[0];
      assert (a + b)[1..] == a[1..] + b;
      TranslateAllAppend(a[1..], b);
      var w := Translate(a[0]).value;
      var x, y := TranslateAll(a[1..]).value, TranslateAll(b).value;
      assert [w] + (x + y) == ([w] + x) + y;
    }
  }

  // ---------------------------------------------------------------------------
  // The module layout
  // ---------------------------------------------------------------------------

  datatype FuncType = FuncType(params: seq<Types.ValType>, results: seq<Types.ValType>)

  datatype MemoryType = MemoryType(minimum: nat, maximum: Option<nat>, memory64: bool, shared: bool)

  datatype ExportKind = Func | Memory

  datatype Export = Export(name: string, kind: ExportKind, index: nat)

  /** A function body: its locals (none here) and its instructions, `end` included. */
  datatype FunctionBody = FunctionBody(locals: seq<Types.ValType>, instructions: seq<WasmInstr>)

  datatype Section =
    | TypeSection(types: seq<FuncType>)
    | FunctionSection(typeIndices: seq<nat>)
    | MemorySection(memories: seq<MemoryType>)
    | ExportSection(exports: seq<Export>)
    | CodeSection(bodies: seq<FunctionBody>)

  /** An emitted module, as its sections in order. */
  datatype WasmModule = WasmModule(sections: seq<Section>)

  /** The section identifiers of the binary format (section 5.5.2 of the WebAssembly Core
      Specification 2.0). */
  function SectionId(s: Section): nat {
    match s
    case TypeSection(_) => 1
    case FunctionSection(_) => 3
    case MemorySection(_) => 5
    case ExportSection(_) => 7
    case CodeSection(_) => 10
  }

  /** The entry function's body on success: the translations in IR order, then `end`. */
  function FunctionCode(f: L.LoweredFunction): (r: Result<FunctionBody, string>)
    ensures r.Ok? <==> !L.HasEntityInstruction(f.instructions)
    ensures r.Ok? ==> |r.value.instructions| == |f.instructions| + 1
    ensures r.Ok? ==> r.value.instructions[|f.instructions|] == End
    ensures r.Ok? ==> forall k :: 0 <= k < |f.instructions| ==> Translate(f.instructions[k]) == Ok(r.value.instructions[k])
  {
    var ws :- TranslateAll(f.instructions);
    Ok(FunctionBody([], ws + [End]))
  }

  /** The five sections built around a compiled entry body. */
  function EntrySections(body: FunctionBody): seq<Section> {
    var sig := Types.PolicyEntry();
    [ TypeSection([FuncType(Types.ToValTypes(sig.params), Types.ToValTypes(sig.results))]),
      FunctionSection([0]),
      MemorySection([MemoryType(Runtime.INITIAL_PAGES, Some(Runtime.MAX_PAGES), false, false)]),
      ExportSection([Export("evaluate", Func, 0), Export("memory", Memory, 0)]),
      CodeSection([body]) ]
  }

  /** The sections that generating a lowered module appends, or the code error. */
  function ModuleSections(m: L.LoweredModule): (r: Result<seq<Section>, string>)
    ensures r.Ok? <==> FunctionCode(m.entry).Ok?
    ensures r.Err? ==> r.error == FunctionCode(m.entry).error
  {
    var body :- FunctionCode(m.entry);
    Ok(EntrySections(body))
  }

  /** The entry body of a module laid out as `EntrySections` lays it out. */
  function EntryBody(sections: seq<Section>): seq<WasmInstr>
    requires |sections| == 5 && sections[4].CodeSection? && |sections[4].bodies| == 1
  {
    sections[4].bodies[0].instructions
  }

  /** A single-function module is laid out consistently: sections in increasing identifier
      order, the function's type index names a type of the type section, one body per
      function, every export index names a function or memory that exists, the memory's
      limits are ordered, and the one function type is () -> (i32). This is not WebAssembly
      validation: the operand types of the body's instructions are not checked. */
  predicate EntryModuleWellFormed(sections: seq<Section>) {
    && |sections| == 5
    && (forall i, j :: 0 <= i < j < 5 ==> SectionId(sections[i]) < SectionId(sections[j]))
    && sections[0].TypeSection? && sections[1].FunctionSection? && sections[2].MemorySection?
    && sections[3].ExportSection? && sections[4].CodeSection?
    && sections[0].types == [FuncType([], [Types.I32])]
    && (forall t :: t in sections[1].typeIndices ==> t < |sections[0].types|)
    && |sections[4].bodies| == |sections[1].typeIndices| == 1
    && |sections[2].memories| == 1
    && sections[2].memories[0].maximum.Some?
    && sections[2].memories[0].minimum <= sections[2].memories[0].maximum.value
    && (forall e :: e in sections[3].exports && e.kind == Func ==> e.index < |sections[1].typeIndices|)
    && (forall e :: e in sections[3].exports && e.kind == Memory ==> e.index < |sections[2].memories|)
  }

  /** Generation fails only with the message of an instruction without a translation. */
  lemma ModuleSectionsErrorMessage(m: L.LoweredModule)
    requires ModuleSections(m).Err?
    ensures ModuleSections(m).error in UnimplementedMessages
  {
    TranslateAllErrorMessage(m.entry.instructions);
  }

  /** Generation fails exactly when the module holds an attribute read, an attribute test or
      a membership test; on success the layout is the fixed one: the `evaluate` function of
      type () -> (i32) and a memory of [INITIAL_PAGES, MAX_PAGES] pages, both exported. */
  lemma ModuleSectionsLayout(m: L.LoweredModule)
    ensures ModuleSections(m).Err? <==> L.HasEntityInstruction(m.entry.instructions)
    ensures ModuleSections(m).Ok? ==>
      var secs := ModuleSections(m).value;
      && EntryModuleWellFormed(secs)
      && secs[1].typeIndices == [0]
      && secs[2].memories == [MemoryType(1, Some(16), false, false)]
      && secs[3].exports == [Export("evaluate", Func, 0), Export("memory", Memory, 0)]
      && secs[4].bodies == [FunctionCode(m.entry).value]
  {
    Runtime.MemoryLayout();
  }

  // ---------------------------------------------------------------------------
  // The generator as the compiler runs it
  // ---------------------------------------------------------------------------

  /** A function body under construction (`wasm_encoder::Function`). */
  class FunctionBuilder {
    var instructions: seq<WasmInstr>

    constructor ()
      ensures instructions == []
    {
      instructions := [];
    }

    method Instruction(w: WasmInstr)
      modifies this
      ensures instructions == old(instructions) + [w]
    {
      instructions := instructions + [w];
    }
  }

  class WasmCodeGen {
    /** The module being assembled, as the sections appended so far. */
    var sections: seq<Section>

    constructor ()
      ensures sections == []
    {
      sections := [];
    }

    /** Emits the translation of one instruction into `f`, or fails leaving `f` as it was. */
    method CompileInstruction(inst: L.Instruction, f: FunctionBuilder) returns (r: Result<(), string>)
      modifies f
      ensures r.Ok? <==> Translate(inst).Ok?
      ensures r.Err? ==> r.error == Translate(inst).error && f.instructions == old(f.instructions)
      ensures r.Ok? ==> f.instructions == old(f.instructions) + [Translate(inst).value]
    {
      r := Ok(());
      match inst
      case PushBool(b) => f.Instruction(I32Const(if b then 1 else 0));
      case PushInt(n) => f.Instruction(I64Const(n));
      case PushString(_) => f.Instruction(I32Const(0));
      case Equal => f.Instruction(I64Eq);
      case NotEqual => f.Instruction(I64Ne);
      case LessThan => f.Instruction(I64LtS);
      case LessThanOrEqual => f.Instruction(I64LeS);
      case GreaterThan => f.Instruction(I64GtS);
      case GreaterThanOrEqual => f.Instruction(I64GeS);
      case And => f.Instruction(I32And);
      case Or => f.Instruction(I32Or);
      case Not => f.Instruction(I32Eqz);
      case IfThenElse => f.Instruction(Select);
      case Return => f.Instruction(Return);
      case Permit => f.Instruction(I32Const(Runtime.Code(Runtime.Permit)));
      case Forbid => f.Instruction(I32Const(Runtime.Code(Runtime.Deny)));
      case NoDecision => f.Instruction(I32Const(Runtime.Code(Runtime.NoDecision)));
      case GetAttribute(_) => return Err("GetAttribute not yet implemented");
      case HasAttribute(_) => return Err("HasAttribute not yet implemented");
      case In => return Err("In operator not yet implemented");
    }

    /** Compiles the entry function: one translation per IR instruction, in order, then
        `end`; the first instruction without a translation aborts the whole function. */
    method CompileFunction(func: L.LoweredFunction) returns (r: Result<FunctionBody, string>)
      ensures r == FunctionCode(func)
    {
      var f := new FunctionBuilder();
      var code := func.instructions;
      for k := 0 to |code|
        invariant |f.instructions| == k
        invariant forall j :: 0 <= j < k ==> Translate(code[j]) == Ok(f.instructions[j])
      {
        var step := CompileInstruction(code[k], f);
        if step.Err? {
          TranslateAllStopsAt(code, k);
          return Err(step.error);
        }
      }
      TranslateAllOfAll(code, f.instructions);
      f.Instruction(End);
      r := Ok(FunctionBody([], f.instructions));
    }

    /** Builds the five sections; if the entry body cannot be compiled nothing is appended.
        Otherwise the sections are appended to the module, and the whole module is
        returned. */
    method Generate(lowered: L.LoweredModule) returns (r: Result<WasmModule, string>)
      modifies this
      ensures ModuleSections(lowered).Err? ==>
        sections == old(sections) && r == Err(ModuleSections(lowered).error)
      ensures ModuleSections(lowered).Ok? ==>
        sections == old(sections) + ModuleSections(lowered).value && r == Ok(WasmModule(sections))
    {
      var sig := Types.PolicyEntry();
      var types := TypeSection([FuncType(Types.ToValTypes(sig.params), Types.ToValTypes(sig.results))]);
      var functions := FunctionSection([0]);
      var memories := MemorySection([MemoryType(Runtime.INITIAL_PAGES, Some(Runtime.MAX_PAGES), false, false)]);
      var exports := ExportSection([Export("evaluate", Func, 0), Export("memory", Memory, 0)]);
      var body := CompileFunction(lowered.entry);
      if body.Err? {
        return Err(body.error);
      }
      var codes := CodeSection([body.value]);
      sections := sections + [types];
      sections := sections + [functions];
      sections := sections + [memories];
      sections := sections + [exports];
      sections := sections + [codes];
      r := Ok(WasmModule(sections));
    }
  }

  lemma TranslateAllStopsAt(code: seq<L.Instruction>, k: nat)
    requires k < |code| && Translate(code[k]).Err?
    requires forall j :: 0 <= j < k ==> Translate(code[j]).Ok?
    ensures TranslateAll(code) == Err(Translate(code[k]).error)
    decreases k
  {
    if k > 0 {
      var rest := code[1..];
      assert rest[k - 1] == code[k];
      forall j | 0 <= j < k - 1 ensures Translate(rest[j]).Ok? {
        assert rest[j] == code[j + 1];
      }
      TranslateAllStopsAt(rest, k - 1);
      assert Translate(code[0]).Ok?;
    }
  }

  lemma TranslateAllOfAll(code: seq<L.Instruction>, ws: seq<WasmInstr>)
    requires |ws| == |code|
    requires forall j :: 0 <= j < |code| ==> Translate(code[j]) == Ok(ws[j])
    ensures TranslateAll(code) == Ok(ws)
  {
    if code != [] {
      var rest := code[1..];
      forall j | 0 <= j < |rest| ensures Translate(rest[j]) == Ok(ws[1..][j]) {
        assert rest[j] == code[j + 1];
      }
      TranslateAllOfAll(rest, ws[1..]);
      assert Translate(code[0]) == Ok(ws[0]);
      assert ws == [ws[0]] + ws[1..];
    }
  }
}
