/** Lowering of a parsed policy to the stack IR: a post-order expression compiler that
    appends to an instruction buffer, and the assembly of one policy into the entry
    function `[effect, NoDecision, <condition>, IfThenElse, Return]`. */
module Lowering {

  import opened Wrappers

  /** A signed 64-bit integer (Rust `i64`). */
  type i64 = x: int | -0x8000_0000_0000_0000 <= x < 0x8000_0000_0000_0000

  // ---------------------------------------------------------------------------
  // The part of the policy language's abstract syntax that the lowering inspects
  // ---------------------------------------------------------------------------

  datatype Effect = Permit | Forbid

  /** The four request variables. */
  datatype Variable = Principal | Action | Resource | Context

  /** Literals: the three the lowering handles, and entity identifiers (given by their
      canonical text), which it does not. */
  datatype Literal = Bool(b: bool) | Long(n: i64) | String(s: string) | EntityUid(uid: string)

  /** The binary and unary operators of the policy language. */
  datatype BinaryOp =
    | Eq | Less | LessEq | Add | Sub | Mul | In
    | Contains | ContainsAll | ContainsAny | GetTag | HasTag

  datatype UnaryOp = Not | Neg | IsEmpty

  /** Expressions. `Other` stands for every remaining expression kind (sets, records,
      extension calls, `like`, `is`, slots, unknowns); `kind` is its printed form. */
  datatype Expr =
    | Lit(lit: Literal)
    | BinaryApp(op: BinaryOp, arg1: Expr, arg2: Expr)
    | UnaryApp(uop: UnaryOp, arg: Expr)
    | And(left: Expr, right: Expr)
    | Or(left: Expr, right: Expr)
    | GetAttr(entity: Expr, attr: string)
    | HasAttr(entity: Expr, attr: string)
    | If(testExpr: Expr, thenExpr: Expr, elseExpr: Expr)
    | Var(v: Variable)
    | Other(kind: string)

  /** What the lowering reads of a template or a policy: its effect and its condition. The
      condition is the whole expression the parser hands over (the scope constraints
      conjoined with the `when` and `unless` clauses), not only a `when` body. */
  datatype Template = Template(effect: Effect, condition: Expr)
  datatype Policy = Policy(effect: Effect, condition: Expr)

  // ---------------------------------------------------------------------------
  // The stack IR
  // ---------------------------------------------------------------------------

  datatype Instruction =
    | PushBool(b: bool)
    | PushInt(n: i64)
    | PushString(s: string)
    | Equal | NotEqual | LessThan | LessThanOrEqual | GreaterThan | GreaterThanOrEqual
    | And | Or | Not
    | GetAttribute(name: string)
    | HasAttribute(name: string)
    | In
    | IfThenElse
    | Return
    | Permit | Forbid | NoDecision

  datatype LoweredFunction = LoweredFunction(instructions: seq<Instruction>)

  datatype LoweredModule = LoweredModule(entry: LoweredFunction)

  /** Instructions that compute a value, as opposed to the decision markers and `Return`
      that only the policy assembly emits. */
  predicate IsValueInstruction(i: Instruction) {
    !(i.Return? || i.Permit? || i.Forbid? || i.NoDecision?)
  }

  /** Instructions that need the entity store at run time. */
  predicate IsEntityInstruction(i: Instruction) {
    i.GetAttribute? || i.HasAttribute? || i.In?
  }

  /** Operand-stack effect of each instruction: how many values it pops, how many it pushes. */
  function Pops(i: Instruction): nat {
    match i
    case PushBool(_) => 0
    case PushInt(_) => 0
    case PushString(_) => 0
    case Permit => 0
    case Forbid => 0
    case NoDecision => 0
    case Not => 1
    case GetAttribute(_) => 1
    case HasAttribute(_) => 1
    case Return => 1
    case IfThenElse => 3
    case _ => 2
  }

  function Pushes(i: Instruction): nat {
    if i.Return? then 0 else 1
  }

  /** The stack height after running `code` from height `d`, or None if some instruction
      would find fewer operands than it pops. */
  function Depth(code: seq<Instruction>, d: nat): Option<nat> {
    if code == [] then Some(d)
    else if d < Pops(code[0]) then None
    else Depth(code[1..], d - Pops(code[0]) + Pushes(code[0]))
  }

  lemma {:induction false} DepthAppend(a: seq<Instruction>, b: seq<Instruction>, d: nat)
    ensures Depth(a + b, d) == if Depth(a, d).None? then None else Depth(b, Depth(a, d).value)
  {
    if a != [] {
      assert (a + b)[0] == a[0];
      assert (a + b)[1..] == a[1..] + b;
      if d >= Pops(a[0]) {
        DepthAppend(a[1..], b, d - Pops(a[0]) + Pushes(a[0]));
      }
    } else {
      assert a + b == b;
    }
  }

  // ---------------------------------------------------------------------------
  // The expression compiler, as a specification
  // ---------------------------------------------------------------------------

  /** The derived debug names of the operators, used in error messages. */
  function BinaryOpName(op: BinaryOp): string {
    match op
    case Eq => "Eq"
    case Less => "Less"
    case LessEq => "LessEq"
    case Add => "Add"
    case Sub => "Sub"
    case Mul => "Mul"
    case In => "In"
    case Contains => "Contains"
    case ContainsAll => "ContainsAll"
    case ContainsAny => "ContainsAny"
    case GetTag => "GetTag"
    case HasTag => "HasTag"
  }

  function UnaryOpName(op: UnaryOp): string {
    match op
    case Not => "Not"
    case Neg => "Neg"
    case IsEmpty => "IsEmpty"
  }

  function BinaryOpError(op: BinaryOp): string { "Unsupported binary operator: " + BinaryOpName(op) }
  function UnaryOpError(op: UnaryOp): string { "Unsupported unary operator: " + UnaryOpName(op) }
  function KindError(kind: string): string { "Expression type not yet supported in compiler: " + kind }

  /** The comparison instruction of a binary operator, for the four operators supported. */
  function BinaryInstruction(op: BinaryOp): Option<Instruction> {
    match op
    case Eq => Some(Instruction.Equal)
    case In => Some(Instruction.In)
    case Less => Some(Instruction.LessThan)
    case LessEq => Some(Instruction.LessThanOrEqual)
    case _ => None
  }

  /** The single push a literal lowers to; literals other than booleans, longs and strings
      become the placeholder `PushBool(false)`. */
  function LiteralInstruction(lit: Literal): Instruction {
    match lit
    case Bool(b) => PushBool(b)
    case Long(n) => PushInt(n)
    case String(s) => PushString(s)
    case EntityUid(_) => PushBool(false)
  }

  /** The error for an expression whose own node (not a sub-expression) is rejected. */
  function NodeRejection(e: Expr): Option<string> {
    match e
    case BinaryApp(op, _, _) =>
      if BinaryInstruction(op).None? then Some(BinaryOpError(op)) else None
    case UnaryApp(op, _) =>
      if op != UnaryOp.Not then Some(UnaryOpError(op)) else None
    case Other(kind) => Some(KindError(kind))
    case _ => None
  }

  /** Post-order compilation: operands left to right, then the operator. The operands of a
      binary or unary operator are compiled before the operator itself is checked. */
  function Compile(e: Expr): Result<seq<Instruction>, string> {
    match e
    case Lit(lit) => Ok([LiteralInstruction(lit)])
    case BinaryApp(op, arg1, arg2) =>
      var c1 :- Compile(arg1);
      var c2 :- Compile(arg2);
      if BinaryInstruction(op).Some? then Ok(c1 + c2 + [BinaryInstruction(op).value])
      else Err(BinaryOpError(op))
    case UnaryApp(op, arg) =>
      var c :- Compile(arg);
      if op == UnaryOp.Not then Ok(c + [Instruction.Not])
      else Err(UnaryOpError(op))
    case And(left, right) =>
      var c1 :- Compile(left);
      var c2 :- Compile(right);
      Ok(c1 + c2 + [Instruction.And])
    case Or(left, right) =>
      var c1 :- Compile(left);
      var c2 :- Compile(right);
      Ok(c1 + c2 + [Instruction.Or])
    case GetAttr(entity, attr) =>
      var c :- Compile(entity);
      Ok(c + [GetAttribute(attr)])
    case HasAttr(entity, attr) =>
      var c :- Compile(entity);
      Ok(c + [HasAttribute(attr)])
    case If(test, thn, els) =>
      var c1 :- Compile(test);
      var c2 :- Compile(thn);
      var c3 :- Compile(els);
      Ok(c1 + c2 + c3 + [IfThenElse])
    case Var(_) => Ok([PushBool(true)])
    case Other(kind) => Err(KindError(kind))
  }

  // ---------------------------------------------------------------------------
  // Independent descriptions of what the compiler accepts and produces
  // ---------------------------------------------------------------------------

  /** The supported subset: ==, in, <, <= ; not ; and, or ; attribute read and test ;
      if-then-else ; literals ; variables. */
  predicate Supported(e: Expr) {
    NodeRejection(e).None? &&
    match e
    case Lit(_) => true
    case BinaryApp(_, arg1, arg2) => Supported(arg1) && Supported(arg2)
    case UnaryApp(_, arg) => Supported(arg)
    case And(left, right) => Supported(left) && Supported(right)
    case Or(left, right) => Supported(left) && Supported(right)
    case GetAttr(entity, _) => Supported(entity)
    case HasAttr(entity, _) => Supported(entity)
    case If(test, thn, els) => Supported(test) && Supported(thn) && Supported(els)
    case Var(_) => true
    case Other(_) => false
  }

  /** `s` is `e` or one of its sub-expressions. */
  predicate Occurs(s: Expr, e: Expr) {
    s == e ||
    match e
    case BinaryApp(_, arg1, arg2) => Occurs(s, arg1) || Occurs(s, arg2)
    case UnaryApp(_, arg) => Occurs(s, arg)
    case And(left, right) => Occurs(s, left) || Occurs(s, right)
    case Or(left, right) => Occurs(s, left) || Occurs(s, right)
    case GetAttr(entity, _) => Occurs(s, entity)
    case HasAttr(entity, _) => Occurs(s, entity)
    case If(test, thn, els) => Occurs(s, test) || Occurs(s, thn) || Occurs(s, els)
    case _ => false
  }

  /** The expression reads an attribute, tests for one, or tests entity membership. */
  predicate UsesEntityStore(e: Expr) {
    match e
    case Lit(_) => false
    case BinaryApp(op, arg1, arg2) => op == BinaryOp.In || UsesEntityStore(arg1) || UsesEntityStore(arg2)
    case UnaryApp(_, arg) => UsesEntityStore(arg)
    case And(left, right) => UsesEntityStore(left) || UsesEntityStore(right)
    case Or(left, right) => UsesEntityStore(left) || UsesEntityStore(right)
    case GetAttr(_, _) => true
    case HasAttr(_, _) => true
    case If(test, thn, els) => UsesEntityStore(test) || UsesEntityStore(thn) || UsesEntityStore(els)
    case Var(_) => false
    case Other(_) => false
  }

  /** Lowering succeeds exactly on the supported subset. */
  lemma {:induction false} CompileSucceedsIffSupported(e: Expr)
    ensures Compile(e).Ok? <==> Supported(e)
  {
    match e
    case Lit(_) =>
    case BinaryApp(_, arg1, arg2) =>
      CompileSucceedsIffSupported(arg1);
      CompileSucceedsIffSupported(arg2);
    case UnaryApp(_, arg) =>
      CompileSucceedsIffSupported(arg);
    case And(left, right) =>
      CompileSucceedsIffSupported(left);
      CompileSucceedsIffSupported(right);
    case Or(left, right) =>
      CompileSucceedsIffSupported(left);
      CompileSucceedsIffSupported(right);
    case GetAttr(entity, _) =>
      CompileSucceedsIffSupported(entity);
    case HasAttr(entity, _) =>
      CompileSucceedsIffSupported(entity);
    case If(test, thn, els) =>
      CompileSucceedsIffSupported(test);
      CompileSucceedsIffSupported(thn);
      CompileSucceedsIffSupported(els);
    case Var(_) =>
    case Other(_) =>
  }

  /** A rejection names a construct that occurs in the expression and is itself outside the
      supported subset. */
  lemma {:induction false} RejectionNamesConstruct(e: Expr)
    requires Compile(e).Err?
    ensures exists s :: Occurs(s, e) && NodeRejection(s) == Some(Compile(e).error)
  {
    match e
    case BinaryApp(_, arg1, arg2) =>
      if Compile(arg1).Err? {
        RejectionNamesConstruct(arg1);
        var s :| Occurs(s, arg1) && NodeRejection(s) == Some(Compile(arg1).error);
        assert Occurs(s, e);
      } else if Compile(arg2).Err? {
        RejectionNamesConstruct(arg2);
        var s :| Occurs(s, arg2) && NodeRejection(s) == Some(Compile(arg2).error);
        assert Occurs(s, e);
      } else {
        assert Occurs(e, e);
      }
    case UnaryApp(_, arg) =>
      if Compile(arg).Err? {
        RejectionNamesConstruct(arg);
        var s :| Occurs(s, arg) && NodeRejection(s) == Some(Compile(arg).error);
        assert Occurs(s, e);
      } else {
        assert Occurs(e, e);
      }
    case And(left, right) =>
      if Compile(left).Err? {
        RejectionNamesConstruct(left);
        var s :| Occurs(s, left) && NodeRejection(s) == Some(Compile(left).error);
        assert Occurs(s, e);
      } else {
        RejectionNamesConstruct(right);
        var s :| Occurs(s, right) && NodeRejection(s) == Some(Compile(right).error);
        assert Occurs(s, e);
      }
    case Or(left, right) =>
      if Compile(left).Err? {
        RejectionNamesConstruct(left);
        var s :| Occurs(s, left) && NodeRejection(s) == Some(Compile(left).error);
        assert Occurs(s, e);
      } else {
        RejectionNamesConstruct(right);
        var s :| Occurs(s, right) && NodeRejection(s) == Some(Compile(right).error);
        assert Occurs(s, e);
      }
    case GetAttr(entity, _) =>
      RejectionNamesConstruct(entity);
      var s :| Occurs(s, entity) && NodeRejection(s) == Some(Compile(entity).error);
      assert Occurs(s, e);
    case HasAttr(entity, _) =>
      RejectionNamesConstruct(entity);
      var s :| Occurs(s, entity) && NodeRejection(s) == Some(Compile(entity).error);
      assert Occurs(s, e);
    case If(test, thn, els) =>
      if Compile(test).Err? {
        RejectionNamesConstruct(test);
        var s :| Occurs(s, test) && NodeRejection(s) == Some(Compile(test).error);
        assert Occurs(s, e);
      } else if Compile(thn).Err? {
        RejectionNamesConstruct(thn);
        var s :| Occurs(s, thn) && NodeRejection(s) == Some(Compile(thn).error);
        assert Occurs(s, e);
      } else {
        RejectionNamesConstruct(els);
        var s :| Occurs(s, els) && NodeRejection(s) == Some(Compile(els).error);
        assert Occurs(s, e);
      }
    case Other(_) =>
      assert Occurs(e, e);
  }

  /** The code of every expression leaves exactly one value on the stack, on top of
      whatever was there, and never reaches below it. */
  lemma {:induction false} CompiledPushesOne(e: Expr, d: nat)
    requires Compile(e).Ok?
    ensures Depth(Compile(e).value, d) == Some(d + 1)
  {
    match e
    case Lit(_) =>
    case BinaryApp(op, arg1, arg2) =>
      CompiledPushesOne(arg1, d);
      CompiledPushesOne(arg2, d + 1);
      PushesOneBinary(e, d);
    case UnaryApp(_, arg) =>
      CompiledPushesOne(arg, d);
      PushesOneUnary(e, d);
    case And(left, right) =>
      CompiledPushesOne(left, d);
      CompiledPushesOne(right, d + 1);
      PushesOneLogical(e, d);
    case Or(left, right) =>
      CompiledPushesOne(left, d);
      CompiledPushesOne(right, d + 1);
      PushesOneLogical(e, d);
    case GetAttr(entity, attr) =>
      CompiledPushesOne(entity, d);
      PushesOneAttribute(e, d);
    case HasAttr(entity, attr) =>
      CompiledPushesOne(entity, d);
      PushesOneAttribute(e, d);
    case If(test, thn, els) =>
      CompiledPushesOne(test, d);
      CompiledPushesOne(thn, d + 1);
      CompiledPushesOne(els, d + 2);
      PushesOneIf(e, d);
    case Var(_) =>
  }

  /** One case each of `CompiledPushesOne`, given the property for the operands. */
  lemma PushesOneBinary(e: Expr, d: nat)
    requires e.BinaryApp? && Compile(e).Ok? && Compile(e.arg1).Ok? && Compile(e.arg2).Ok?
    requires Depth(Compile(e.arg1).value, d) == Some(d + 1) && Depth(Compile(e.arg2).value, d + 1) == Some(d + 2)
    ensures Depth(Compile(e).value, d) == Some(d + 1)
  {
    DepthOfBinary(Compile(e.arg1).value, Compile(e.arg2).value, BinaryInstruction(e.op).value, d);
  }

  lemma PushesOneUnary(e: Expr, d: nat)
    requires e.UnaryApp? && Compile(e).Ok? && Compile(e.arg).Ok?
    requires Depth(Compile(e.arg).value, d) == Some(d + 1)
    ensures Depth(Compile(e).value, d) == Some(d + 1)
  {
    DepthOfUnary(Compile(e.arg).value, Instruction.Not, d);
  }

  lemma PushesOneLogical(e: Expr, d: nat)
    requires (e.And? || e.Or?) && Compile(e).Ok? && Compile(e.left).Ok? && Compile(e.right).Ok?
    requires Depth(Compile(e.left).value, d) == Some(d + 1) && Depth(Compile(e.right).value, d + 1) == Some(d + 2)
    ensures Depth(Compile(e).value, d) == Some(d + 1)
  {
    DepthOfBinary(Compile(e.left).value, Compile(e.right).value,
                  if e.And? then Instruction.And else Instruction.Or, d);
  }

  lemma PushesOneAttribute(e: Expr, d: nat)
    requires (e.GetAttr? || e.HasAttr?) && Compile(e).Ok? && Compile(e.entity).Ok?
    requires Depth(Compile(e.entity).value, d) == Some(d + 1)
    ensures Depth(Compile(e).value, d) == Some(d + 1)
  {
    DepthOfUnary(Compile(e.entity).value, if e.GetAttr? then GetAttribute(e.attr) else HasAttribute(e.attr), d);
  }

  lemma PushesOneIf(e: Expr, d: nat)
    requires e.If? && Compile(e).Ok? && Compile(e.testExpr).Ok? && Compile(e.thenExpr).Ok? && Compile(e.elseExpr).Ok?
    requires Depth(Compile(e.testExpr).value, d) == Some(d + 1)
    requires Depth(Compile(e.thenExpr).value, d + 1) == Some(d + 2)
    requires Depth(Compile(e.elseExpr).value, d + 2) == Some(d + 3)
    ensures Depth(Compile(e).value, d) == Some(d + 1)
  {
    DepthOfTernary(Compile(e.testExpr).value, Compile(e.thenExpr).value, Compile(e.elseExpr).value, d);
  }

  /** Post-order code: operands that each push one value, then an operator that pops them
      all and pushes one. */
  lemma DepthOfUnary(c: seq<Instruction>, op: Instruction, d: nat)
    requires Depth(c, d) == Some(d + 1)
    requires Pops(op) == 1 && Pushes(op) == 1
    ensures Depth(c + [op], d) == Some(d + 1)
  {
    DepthAppend(c, [op], d);
  }

  lemma DepthOfBinary(c1: seq<Instruction>, c2: seq<Instruction>, op: Instruction, d: nat)
    requires Depth(c1, d) == Some(d + 1) && Depth(c2, d + 1) == Some(d + 2)
    requires Pops(op) == 2 && Pushes(op) == 1
    ensures Depth(c1 + c2 + [op], d) == Some(d + 1)
  {
    DepthAppend(c1, c2, d);
    DepthAppend(c1 + c2, [op], d);
  }

  lemma DepthOfTernary(c1: seq<Instruction>, c2: seq<Instruction>, c3: seq<Instruction>, d: nat)
    requires Depth(c1, d) == Some(d + 1) && Depth(c2, d + 1) == Some(d + 2) && Depth(c3, d + 2) == Some(d + 3)
    ensures Depth(c1 + c2 + c3 + [IfThenElse], d) == Some(d + 1)
  {
    DepthAppend(c1, c2, d);
    DepthAppend(c1 + c2, c3, d);
    DepthAppend(c1 + c2 + c3, [IfThenElse], d);
  }

  /** An expression's code computes values only: it holds no `Return` and no decision marker. */
  lemma {:induction false} CompiledHasValuesOnly(e: Expr)
    requires Compile(e).Ok?
    ensures forall k :: 0 <= k < |Compile(e).value| ==> IsValueInstruction(Compile(e).value[k])
  {
    match e
    case Lit(_) =>
    case BinaryApp(_, arg1, arg2) =>
      CompiledHasValuesOnly(arg1);
      CompiledHasValuesOnly(arg2);
    case UnaryApp(_, arg) =>
      CompiledHasValuesOnly(arg);
    case And(left, right) =>
      CompiledHasValuesOnly(left);
      CompiledHasValuesOnly(right);
    case Or(left, right) =>
      CompiledHasValuesOnly(left);
      CompiledHasValuesOnly(right);
    case GetAttr(entity, _) =>
      CompiledHasValuesOnly(entity);
    case HasAttr(entity, _) =>
      CompiledHasValuesOnly(entity);
    case If(test, thn, els) =>
      CompiledHasValuesOnly(test);
      CompiledHasValuesOnly(thn);
      CompiledHasValuesOnly(els);
    case Var(_) =>
  }

  predicate HasEntityInstruction(code: seq<Instruction>) {
    exists k :: 0 <= k < |code| && IsEntityInstruction(code[k])
  }

  /** The code of an expression needs the entity store exactly when the expression reads
      or tests an attribute or tests membership. */
  lemma {:induction false} CompiledEntityInstructions(e: Expr)
    requires Compile(e).Ok?
    ensures HasEntityInstruction(Compile(e).value) <==> UsesEntityStore(e)
  {
    match e
    case Lit(_) =>
      EntityInstructionOf([], LiteralInstruction(e.lit));
    case BinaryApp(op, arg1, arg2) =>
      CompiledEntityInstructions(arg1);
      CompiledEntityInstructions(arg2);
      AppendHasEntityInstruction(Compile(arg1).value, Compile(arg2).value);
      EntityInstructionOf(Compile(arg1).value + Compile(arg2).value, BinaryInstruction(op).value);
    case UnaryApp(_, arg) =>
      CompiledEntityInstructions(arg);
      EntityInstructionOf(Compile(arg).value, Instruction.Not);
    case And(left, right) =>
      CompiledEntityInstructions(left);
      CompiledEntityInstructions(right);
      AppendHasEntityInstruction(Compile(left).value, Compile(right).value);
      EntityInstructionOf(Compile(left).value + Compile(right).value, Instruction.And);
    case Or(left, right) =>
      CompiledEntityInstructions(left);
      CompiledEntityInstructions(right);
      AppendHasEntityInstruction(Compile(left).value, Compile(right).value);
      EntityInstructionOf(Compile(left).value + Compile(right).value, Instruction.Or);
    case GetAttr(entity, attr) =>
      EntityInstructionOf(Compile(entity).value, GetAttribute(attr));
    case HasAttr(entity, attr) =>
      EntityInstructionOf(Compile(entity).value, HasAttribute(attr));
    case If(test, thn, els) =>
      CompiledEntityInstructions(test);
      CompiledEntityInstructions(thn);
      CompiledEntityInstructions(els);
      var c1, c2, c3 := Compile(test).value, Compile(thn).value, Compile(els).value;
      AppendHasEntityInstruction(c1, c2);
      AppendHasEntityInstruction(c1 + c2, c3);
      EntityInstructionOf(c1 + c2 + c3, IfThenElse);
    case Var(_) =>
      EntityInstructionOf([], PushBool(true));
  }

  lemma AppendHasEntityInstruction(a: seq<Instruction>, b: seq<Instruction>)
    ensures HasEntityInstruction(a + b) <==> HasEntityInstruction(a) || HasEntityInstruction(b)
  {
    if HasEntityInstruction(a + b) {
      var k :| 0 <= k < |a + b| && IsEntityInstruction((a + b)[k]);
      if k >= |a| { assert IsEntityInstruction(b[k - |a|]); }
    }
    if HasEntityInstruction(b) {
      var k :| 0 <= k < |b| && IsEntityInstruction(b[k]);
      assert (a + b)[|a| + k] == b[k];
    }
    if HasEntityInstruction(a) {
      var k :| 0 <= k < |a| && IsEntityInstruction(a[k]);
      assert (a + b)[k] == a[k];
    }
  }

  lemma EntityInstructionOf(code: seq<Instruction>, i: Instruction)
    ensures HasEntityInstruction(code + [i]) <==> HasEntityInstruction(code) || IsEntityInstruction(i)
  {
    AppendHasEntityInstruction(code, [i]);
    assert [i][0] == i;
  }

  // ---------------------------------------------------------------------------
  // Policy assembly, as a specification
  // ---------------------------------------------------------------------------

  function EffectInstruction(effect: Effect): Instruction {
    match effect
    case Permit => Instruction.Permit
    case Forbid => Instruction.Forbid
  }

  /** The entry function of a policy: the effect and the fallback are pushed first so that
      `select` (which pops the condition, then val_2, then val_1) finds the effect as
      val_1 and `NoDecision` as val_2. Fails with the condition's error. */
  function Assemble(effect: Effect, condition: Expr): (r: Result<LoweredModule, string>)
    ensures r.Ok? <==> Compile(condition).Ok?
    ensures r.Err? ==> r.error == Compile(condition).error
  {
    var code :- Compile(condition);
    Ok(LoweredModule(LoweredFunction([EffectInstruction(effect), NoDecision] + code + [IfThenElse, Return])))
  }

  /** The layout of an assembled policy: effect, fallback, the condition's code, select,
      return. */
  lemma AssembledLayout(effect: Effect, condition: Expr)
    requires Assemble(effect, condition).Ok?
    ensures var code := Assemble(effect, condition).value.entry.instructions;
      && |code| == |Compile(condition).value| + 4
      && code[0] == (if effect == Effect.Permit then Instruction.Permit else Instruction.Forbid)
      && code[1] == NoDecision
      && code[2..|code| - 2] == Compile(condition).value
      && code[|code| - 2..] == [IfThenElse, Return]
  {
    var code := Assemble(effect, condition).value.entry.instructions;
    var c := Compile(condition).value;
    assert code == [EffectInstruction(effect), NoDecision] + c + [IfThenElse, Return];
    assert code[2..|code| - 2] == c;
  }

  /** Stack discipline of an assembled policy: it starts and ends on an empty stack, and its
      only `Return` is its last instruction. */
  lemma AssembledReturnsLast(effect: Effect, condition: Expr)
    requires Assemble(effect, condition).Ok?
    ensures var code := Assemble(effect, condition).value.entry.instructions;
      && Depth(code, 0) == Some(0)
      && code[|code| - 1] == Return
      && forall k :: 0 <= k < |code| - 1 ==> code[k] != Return
  {
    AssembledDepth(effect, condition);
    AssembledReturnPositions(effect, condition);
  }

  lemma AssembledDepth(effect: Effect, condition: Expr)
    requires Compile(condition).Ok?
    ensures Depth([EffectInstruction(effect), NoDecision] + Compile(condition).value + [IfThenElse, Return], 0) == Some(0)
  {
    CompiledPushesOne(condition, 2);
    DepthAround(EffectInstruction(effect), Compile(condition).value);
  }

  /** Two pushes, code that adds one value, then a select and a return: back to empty. */
  lemma DepthAround(first: Instruction, c: seq<Instruction>)
    requires Pops(first) == 0 && Pushes(first) == 1
    requires Depth(c, 2) == Some(3)
    ensures Depth([first, NoDecision] + c + [IfThenElse, Return], 0) == Some(0)
  {
    var head := [first, NoDecision];
    var tail := [IfThenElse, Return];
    assert head[1..] == [NoDecision] && [NoDecision][1..] == [];
    assert Depth(head, 0) == Some(2);
    DepthAppend(head, c, 0);
    assert tail[1..] == [Return] && [Return][1..] == [];
    assert Depth(tail, 3) == Some(0);
    DepthAppend(head + c, tail, 0);
  }

  lemma AssembledReturnPositions(effect: Effect, condition: Expr)
    requires Compile(condition).Ok?
    ensures var code := [EffectInstruction(effect), NoDecision] + Compile(condition).value + [IfThenElse, Return];
      && code[|code| - 1] == Return
      && forall k :: 0 <= k < |code| - 1 ==> code[k] != Return
  {
    var c := Compile(condition).value;
    var code := [EffectInstruction(effect), NoDecision] + c + [IfThenElse, Return];
    CompiledHasValuesOnly(condition);
    forall k | 0 <= k < |code| - 1 ensures code[k] != Return {
      if 2 <= k < |code| - 2 {
        assert code[k] == c[k - 2];
      }
    }
  }

  // ---------------------------------------------------------------------------
  // The lowering as the compiler runs it: pushes onto one shared buffer
  // ---------------------------------------------------------------------------

  /** A growable instruction vector (`Vec<Instruction>`). */
  class InstructionBuffer {
    var instructions: seq<Instruction>

    constructor ()
      ensures instructions == []
    {
      instructions := [];
    }

    method Push(i: Instruction)
      modifies this
      ensures instructions == old(instructions) + [i]
    {
      instructions := instructions + [i];
    }
  }

  /** Appends the single push of a literal. */
  method CompileLiteral(lit: Literal, buf: InstructionBuffer)
    modifies buf
    ensures buf.instructions == old(buf.instructions) + [LiteralInstruction(lit)]
  {
    match lit
    case Bool(b) => buf.Push(PushBool(b));
    case Long(n) => buf.Push(PushInt(n));
    case String(s) => buf.Push(PushString(s));
    case EntityUid(_) => buf.Push(PushBool(false));
  }

  /** Concatenation regrouped to the right. */
  lemma Regroup<T>(s: seq<T>, a: seq<T>, b: seq<T>, c: seq<T>)
    ensures s + a + b + c == s + (a + b + c)
    ensures s + a + b == s + (a + b)
  {
  }

  /** Appends the code of `e` to the buffer. It only ever appends: what the buffer held
      before is kept, also when it fails (the partial code is then left behind). */
  method CompileExpr(e: Expr, buf: InstructionBuffer) returns (r: Result<(), string>)
    modifies buf
    decreases e
    ensures old(buf.instructions) <= buf.instructions
    ensures r.Ok? <==> Compile(e).Ok?
    ensures r.Err? ==> r.error == Compile(e).error
    ensures r.Ok? ==> buf.instructions == old(buf.instructions) + Compile(e).value
  {
    ghost var before := buf.instructions;
    match e
    case Lit(lit) =>
      CompileLiteral(lit, buf);
      r := Ok(());
    case BinaryApp(op, arg1, arg2) =>
      r := CompileExpr(arg1, buf);
      if r.Err? { return; }
      r := CompileExpr(arg2, buf);
      if r.Err? { return; }
      match op {
        case Eq => buf.Push(Instruction.Equal);
        case In => buf.Push(Instruction.In);
        case Less => buf.Push(LessThan);
        case LessEq => buf.Push(LessThanOrEqual);
        case _ => return Err(BinaryOpError(op));
      }
      Regroup(before, Compile(arg1).value, Compile(arg2).value, [BinaryInstruction(op).value]);
      r := Ok(());
    case UnaryApp(op, arg) =>
      r := CompileExpr(arg, buf);
      if r.Err? { return; }
      match op {
        case Not => buf.Push(Instruction.Not);
        case _ => return Err(UnaryOpError(op));
      }
      Regroup(before, Compile(arg).value, [Instruction.Not], []);
      r := Ok(());
    case And(left, right) =>
      r := CompileExpr(left, buf);
      if r.Err? { return; }
      r := CompileExpr(right, buf);
      if r.Err? { return; }
      buf.Push(Instruction.And);
      Regroup(before, Compile(left).value, Compile(right).value, [Instruction.And]);
    case Or(left, right) =>
      r := CompileExpr(left, buf);
      if r.Err? { return; }
      r := CompileExpr(right, buf);
      if r.Err? { return; }
      buf.Push(Instruction.Or);
      Regroup(before, Compile(left).value, Compile(right).value, [Instruction.Or]);
    case GetAttr(entity, attr) =>
      r := CompileExpr(entity, buf);
      if r.Err? { return; }
      buf.Push(GetAttribute(attr));
      Regroup(before, Compile(entity).value, [GetAttribute(attr)], []);
    case HasAttr(entity, attr) =>
      r := CompileExpr(entity, buf);
      if r.Err? { return; }
      buf.Push(HasAttribute(attr));
      Regroup(before, Compile(entity).value, [HasAttribute(attr)], []);
    case If(test, thn, els) =>
      r := CompileExpr(test, buf);
      if r.Err? { return; }
      r := CompileExpr(thn, buf);
      if r.Err? { return; }
      r := CompileExpr(els, buf);
      if r.Err? { return; }
      buf.Push(IfThenElse);
      Regroup(before, Compile(test).value, Compile(thn).value, Compile(els).value);
      Regroup(before, Compile(test).value + Compile(thn).value, Compile(els).value, [IfThenElse]);
    case Var(_) =>
      buf.Push(PushBool(true));
      r := Ok(());
    case Other(kind) =>
      r := Err(KindError(kind));
  }

  /** Lowers a policy; on a lowering error no module is produced. */
  method FromPolicy(policy: Policy) returns (r: Result<LoweredModule, string>)
    ensures r == Assemble(policy.effect, policy.condition)
  {
    var buf := new InstructionBuffer();
    match policy.effect {
      case Permit => buf.Push(Instruction.Permit);
      case Forbid => buf.Push(Instruction.Forbid);
    }
    buf.Push(NoDecision);
    var compiled := CompileExpr(policy.condition, buf);
    if compiled.Err? {
      return Err(compiled.error);
    }
    buf.Push(IfThenElse);
    buf.Push(Return);
    assert buf.instructions == [EffectInstruction(policy.effect), NoDecision] + Compile(policy.condition).value + [IfThenElse, Return];
    r := Ok(LoweredModule(LoweredFunction(buf.instructions)));
  }

  /** Lowers a template exactly as a policy is lowered. */
  method FromTemplate(template: Template) returns (r: Result<LoweredModule, string>)
    ensures r == Assemble(template.effect, template.condition)
  {
    var buf := new InstructionBuffer();
    match template.effect {
      case Permit => buf.Push(Instruction.Permit);
      case Forbid => buf.Push(Instruction.Forbid);
    }
    buf.Push(NoDecision);
    var compiled := CompileExpr(template.condition, buf);
    if compiled.Err? {
      return Err(compiled.error);
    }
    buf.Push(IfThenElse);
    buf.Push(Return);
    assert buf.instructions == [EffectInstruction(template.effect), NoDecision] + Compile(template.condition).value + [IfThenElse, Return];
    r := Ok(LoweredModule(LoweredFunction(buf.instructions)));
  }
}
