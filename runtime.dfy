/** Runtime conventions shared by the code generator and the host that runs a compiled
    policy: the decision codes the entry function returns, the indices reserved for runtime
    helper functions, and the layout of linear memory. */
module Runtime {

  import opened Wrappers

  /** A signed 32-bit integer, the representation of a decision at the binary boundary. */
  type i32 = x: int | -0x8000_0000 <= x < 0x8000_0000

  /** An unsigned 32-bit integer. */
  type u32 = x: int | 0 <= x < 0x1_0000_0000

  /** The four outcomes of evaluating one compiled policy. */
  datatype Decision = NoDecision | Deny | Permit | Error

  /** The discriminant of a decision (`Decision as i32`). */
  function Code(d: Decision): (c: i32)
    ensures -1 <= c <= 2
    ensures c < 0 <==> d == NoDecision
  {
    match d
    case NoDecision => -1
    case Deny => 0
    case Permit => 1
    case Error => 2
  }

  /** Reads a code back as a decision; every other integer is no decision code at all. */
  function FromCode(c: int): (d: Option<Decision>)
  {
    if c == -1 then Some(NoDecision)
    else if c == 0 then Some(Deny)
    else if c == 1 then Some(Permit)
    else if c == 2 then Some(Error)
    else None
  }

  /** The encoding is lossless: every decision is recovered from its code, so no two
      decisions share a code (in particular "did not apply" is not "deny"). */
  lemma CodeRoundTrip(d: Decision)
    ensures FromCode(Code(d)) == Some(d)
  {
  }

  lemma CodesDistinct(d1: Decision, d2: Decision)
    ensures Code(d1) == Code(d2) ==> d1 == d2
  {
    CodeRoundTrip(d1);
    CodeRoundTrip(d2);
  }

  /** Indices reserved for the runtime helper functions of the module. */
  const STRING_EQ: u32 := 0
  const GET_ATTRIBUTE: u32 := 1
  const HAS_ATTRIBUTE: u32 := 2
  const ENTITY_IN: u32 := 3

  lemma RuntimeFunctionIndices()
    ensures [STRING_EQ, GET_ATTRIBUTE, HAS_ATTRIBUTE, ENTITY_IN] == [0, 1, 2, 3]
    ensures forall i, j :: 0 <= i < j < 4 ==>
      [STRING_EQ, GET_ATTRIBUTE, HAS_ATTRIBUTE, ENTITY_IN][i] != [STRING_EQ, GET_ATTRIBUTE, HAS_ATTRIBUTE, ENTITY_IN][j]
  {
  }

  /** The size of one WebAssembly page (section 2.5.5 of the WebAssembly Core Specification 2.0). */
  const PAGE_SIZE: nat := 0x1_0000

  /** Linear-memory layout, in pages and byte offsets. */
  const INITIAL_PAGES: u32 := 1
  const MAX_PAGES: u32 := 16
  const STRING_POOL_START: u32 := 0x1000

  /** The memory limits are a valid range and the string pool begins inside the memory
      that exists from the start. */
  lemma MemoryLayout()
    ensures INITIAL_PAGES <= MAX_PAGES
    ensures STRING_POOL_START < INITIAL_PAGES * PAGE_SIZE
  {
  }
}
