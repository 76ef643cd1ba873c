/** The mapping from the policy language's value kinds to WebAssembly value types, and the
    signature of the compiled entry point. */
module Types {

  /** WebAssembly number types used by the generated code. */
  datatype ValType = I32 | I64

  /** The kinds of value a compiled policy manipulates. */
  datatype WasmType = Bool | Int | String | Entity

  /** Booleans are 32-bit integers, integers are 64-bit, strings are 32-bit pointers into
      linear memory and entities 32-bit indices into an entity table. */
  function ToValType(t: WasmType): (v: ValType)
    ensures v == I64 <==> t == Int
  {
    match t
    case Bool => I32
    case Int => I64
    case String => I32
    case Entity => I32
  }

  /** The value types of a list of kinds, element by element. */
  function ToValTypes(ts: seq<WasmType>): (vs: seq<ValType>)
    ensures |vs| == |ts|
    ensures forall k :: 0 <= k < |ts| ==> vs[k] == ToValType(ts[k])
  {
    if ts == [] then [] else [ToValType(ts[0])] + ToValTypes(ts[1..])
  }

  datatype FunctionSignature = FunctionSignature(params: seq<WasmType>, results: seq<WasmType>)

  function NewSignature(params: seq<WasmType>, results: seq<WasmType>): (s: FunctionSignature)
    ensures s.params == params && s.results == results
  {
    FunctionSignature(params, results)
  }

  /** The entry point takes nothing and returns one boolean-shaped value, the decision code;
      at the WebAssembly level that is the function type [] -> [i32]. */
  function PolicyEntry(): (s: FunctionSignature)
    ensures ToValTypes(s.params) == []
    ensures ToValTypes(s.results) == [I32]
  {
    FunctionSignature([], [Bool])
  }
}
