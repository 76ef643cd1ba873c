/** A small-step operand-stack semantics for the instructions the generator emits, after
    chapter 4 of the WebAssembly Core Specification 2.0. Values are unbounded integers: the
    32-bit bitwise instructions wrap their operands to 32 bits explicitly. The stack is
    untyped, so a body that would fail validation only because of operand types still runs
    here; a body that would find too few operands stops in `Invalid`. */
module WasmSemantics {

  import opened Wrappers
  import L = Lowering
  import opened Codegen

  datatype State =
    | Running(stack: seq<int>)
    | Returned(result: int)
    | Invalid

  /** The i32 encoding of a truth value. */
  function FromBool(b: bool): int {
    if b then 1 else 0
  }

  /** The low 32 bits of a value, and the signed value of 32 bits. */
  function Bits(x: int): bv32 {
    (x % 0x1_0000_0000) as bv32
  }

  function Signed(b: bv32): int {
    if b as int < 0x8000_0000 then b as int else b as int - 0x1_0000_0000
  }

  /** The result of an instruction that pops two operands, `a` below `b` (sections 4.4.1.3
      and 4.4.1.5 of the WebAssembly Core Specification 2.0). */
  function BinaryResult(w: WasmInstr, a: int, b: int): int
    requires WasmPops(w) == 2
  {
    match w
    case I64Eq => FromBool(a == b)
    case I64Ne => FromBool(a != b)
    case I64LtS => FromBool(a < b)
    case I64LeS => FromBool(a <= b)
    case I64GtS => FromBool(a > b)
    case I64GeS => FromBool(a >= b)
    case I32And => Signed(Bits(a) & Bits(b))
    case I32Or => Signed(Bits(a) | Bits(b))
  }

  /** One instruction. After a `return` nothing runs; `select` pops the condition, then
      val_2, then val_1 and keeps val_1 exactly when the condition is non-zero (section
      4.4.4); the final `end` yields the one value left on the stack. */
  function Step(w: WasmInstr, st: State): State {
    match st
    case Returned(_) => st
    case Invalid => st
    case Running(s) =>
      var n := |s|;
      if n < WasmPops(w) then Invalid
      else if w.I32Const? then Running(s + [w.n32])
      else if w.I64Const? then Running(s + [w.n64])
      else if w.I32Eqz? then Running(s[..n - 1] + [FromBool(s[n - 1] == 0)])
      else if w.Select? then Running(s[..n - 3] + [if s[n - 1] != 0 then s[n - 3] else s[n - 2]])
      else if w.Return? then Returned(s[n - 1])
      else if w.End? then (if n == 1 then Returned(s[0]) else Invalid)
      else Running(s[..n - 2] + [BinaryResult(w, s[n - 2], s[n - 1])])
  }

  function Run(code: seq<WasmInstr>, st: State): State {
    if code == [] then st else Run(code[1..], Step(code[0], st))
  }

  /** The stack height after `code` from height `d`, or None if an operand is missing. */
  function WDepth(code: seq<WasmInstr>, d: nat): Option<nat> {
    if code == [] then Some(d)
    else if d < WasmPops(code[0]) then None
    else WDepth(code[1..], d - WasmPops(code[0]) + WasmPushes(code[0]))
  }

  /** Code that neither returns nor ends the function. */
  predicate StraightLine(code: seq<WasmInstr>) {
    forall k :: 0 <= k < |code| ==> !code[k].Return? && !code[k].End?
  }

  /** Running a concatenation runs its parts one after the other. */
  lemma {:induction false} RunAppend(a: seq<WasmInstr>, b: seq<WasmInstr>, st: State)
    ensures Run(a + b, st) == Run(b, Run(a, st))
  {
    if a == [] {
      assert a + b == b;
    } else {
      assert (a + b)[0] == a[0];
      assert (a + b)[1..] == a[1..] + b;
      RunAppend(a[1..], b, Step(a[0], st));
    }
  }

  /** Once the function has returned or failed, the remaining code changes nothing. */
  lemma {:induction false} RunStopped(code: seq<WasmInstr>, st: State)
    requires !st.Running?
    ensures Run(code, st) == st
  {
    if code != [] {
      RunStopped(code[1..], Step(code[0], st));
    }
  }

  /** An instruction that finds its operands in `u` computes the same thing whatever lies
      below `u`, and leaves what lies below untouched. */
  lemma StepFrame(w: WasmInstr, s: seq<int>, u: seq<int>)
    requires !w.Return? && !w.End? && WasmPops(w) <= |u|
    ensures Step(w, Running(u)).Running?
    ensures |Step(w, Running(u)).stack| == |u| - WasmPops(w) + WasmPushes(w)
    ensures Step(w, Running(s + u)) == Running(s + Step(w, Running(u)).stack)
  {
    if WasmPops(w) == 0 {
      PushFrame(w, s, u);
    } else if w.I32Eqz? {
      EqzFrame(s, u);
    } else if w.Select? {
      SelectFrame(s, u);
    } else {
      BinaryFrame(w, s, u);
    }
  }

  lemma PushFrame(w: WasmInstr, s: seq<int>, u: seq<int>)
    requires w.I32Const? || w.I64Const?
    ensures Step(w, Running(u)) == Running(u + [if w.I32Const? then w.n32 else w.n64])
    ensures Step(w, Running(s + u)) == Running(s + (u + [if w.I32Const? then w.n32 else w.n64]))
  {
    var c := if w.I32Const? then w.n32 else w.n64;
    assert (s + u) + [c] == s + (u + [c]);
  }

  lemma EqzFrame(s: seq<int>, u: seq<int>)
    requires 1 <= |u|
    ensures Step(I32Eqz, Running(u)) == Running(u[..|u| - 1] + [FromBool(u[|u| - 1] == 0)])
    ensures Step(I32Eqz, Running(s + u)) == Running(s + (u[..|u| - 1] + [FromBool(u[|u| - 1] == 0)]))
  {
    var su := s + u;
    var n, m := |u|, |su|;
    assert su[m - 1] == u[n - 1];
    assert su[..m - 1] == s + u[..n - 1];
  }

  lemma SelectFrame(s: seq<int>, u: seq<int>)
    requires 3 <= |u|
    ensures Step(Select, Running(u))
            == Running(u[..|u| - 3] + [if u[|u| - 1] != 0 then u[|u| - 3] else u[|u| - 2]])
    ensures Step(Select, Running(s + u))
            == Running(s + (u[..|u| - 3] + [if u[|u| - 1] != 0 then u[|u| - 3] else u[|u| - 2]]))
  {
    var su := s + u;
    var n, m := |u|, |su|;
    assert su[m - 1] == u[n - 1] && su[m - 2] == u[n - 2] && su[m - 3] == u[n - 3];
    assert su[..m - 3] == s + u[..n - 3];
  }

  lemma BinaryFrame(w: WasmInstr, s: seq<int>, u: seq<int>)
    requires WasmPops(w) == 2 && 2 <= |u|
    ensures Step(w, Running(u)) == Running(u[..|u| - 2] + [BinaryResult(w, u[|u| - 2], u[|u| - 1])])
    ensures Step(w, Running(s + u))
            == Running(s + (u[..|u| - 2] + [BinaryResult(w, u[|u| - 2], u[|u| - 1])]))
  {
    var su := s + u;
    var n, m := |u|, |su|;
    assert su[m - 1] == u[n - 1] && su[m - 2] == u[n - 2];
    assert su[..m - 2] == s + u[..n - 2];
  }

  /** Straight-line code whose operands never reach below its starting stack runs the same
      on top of any stack, and ends at the height `WDepth` predicts. */
  lemma {:induction false} RunFrame(code: seq<WasmInstr>, s: seq<int>, u: seq<int>)
    requires StraightLine(code) && WDepth(code, |u|).Some?
    ensures Run(code, Running(u)).Running?
    ensures |Run(code, Running(u)).stack| == WDepth(code, |u|).value
    ensures Run(code, Running(s + u)) == Running(s + Run(code, Running(u)).stack)
  {
    if code != [] {
      StepFrame(code[0], s, u);
      var u' := Step(code[0], Running(u)).stack;
      assert StraightLine(code[1..]) by {
        forall k | 0 <= k < |code[1..]| ensures !code[1..][k].Return? && !code[1..][k].End? {
          assert code[1..][k] == code[k + 1];
        }
      }
      RunFrame(code[1..], s, u');
    }
  }

  /** Code whose last instruction is `return` never leaves the function running. */
  lemma EndsInReturn(code: seq<WasmInstr>, st: State)
    requires |code| > 0 && code[|code| - 1] == Return
    ensures !Run(code, st).Running?
  {
    var k := |code| - 1;
    assert code == code[..k] + [Return];
    RunAppend(code[..k], [Return], st);
    assert [Return][1..] == [];
  }

  // ---------------------------------------------------------------------------
  // The translation keeps the stack discipline of the IR
  // ---------------------------------------------------------------------------

  /** Translated code needs and leaves exactly the operands the IR code does. */
  lemma {:induction false} TranslatePreservesDepth(code: seq<L.Instruction>, d: nat)
    requires TranslateAll(code).Ok?
    ensures WDepth(TranslateAll(code).value, d) == L.Depth(code, d)
  {
    if code != [] {
      var ws := TranslateAll(code).value;
      assert Translate(code[0]) == Ok(ws[0]);
      TranslateKeepsArity(code[0]);
      assert TranslateAll(code[1..]).Ok? && TranslateAll(code[1..]).value == ws[1..];
      if d >= L.Pops(code[0]) {
        TranslatePreservesDepth(code[1..], d - L.Pops(code[0]) + L.Pushes(code[0]));
      }
    }
  }

  /** IR code without `Return` translates to straight-line code. */
  lemma TranslateStraightLine(code: seq<L.Instruction>)
    requires TranslateAll(code).Ok?
    requires forall k :: 0 <= k < |code| ==> code[k] != L.Instruction.Return
    ensures StraightLine(TranslateAll(code).value)
  {
    var ws := TranslateAll(code).value;
    forall k | 0 <= k < |ws| ensures !ws[k].Return? && !ws[k].End? {
      assert Translate(code[k]) == Ok(ws[k]);
      TranslateReturn(code[k]);
    }
  }
}
