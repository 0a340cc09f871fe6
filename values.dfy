/**
 * Python values as they reach the tools: what `ast.literal_eval` can produce from the model's
 * `<action_input>` text, and what a tool callable can return. Floats, complex numbers and other
 * non-iterable scalars are `VOther`, carrying their type name and their `str()` text.
 */
module Values {
  import opened Common
  import opened Text

  datatype Value =
    | VNone
    | VBool(b: bool)
    | VInt(i: int)
    | VStr(s: string)
    | VList(items: seq<Value>)
    | VTuple(elems: seq<Value>)
    | VDict(entries: seq<(Value, Value)>)   // insertion order, as a Python dict keeps it
    | VOther(typeName: string, text: string)

  /** `type(v).__name__`. */
  function TypeName(v: Value): string
  {
    match v
    case VNone => "NoneType"
    case VBool(_) => "bool"
    case VInt(_) => "int"
    case VStr(_) => "str"
    case VList(_) => "list"
    case VTuple(_) => "tuple"
    case VDict(_) => "dict"
    case VOther(t, _) => t
  }

  /** `str(v)`; strings inside containers are shown by `Repr` (quote escaping is not modelled). */
  function Show(v: Value): string
    decreases v, 1
  {
    match v
    case VNone => "None"
    case VBool(b) => if b then "True" else "False"
    case VInt(i) => IntToString(i)
    case VStr(s) => s
    case VList(xs) => "[" + Join(", ", seq(|xs|, k requires 0 <= k < |xs| => Repr(xs[k]))) + "]"
    case VTuple(xs) =>
      if |xs| == 1 then "(" + Repr(xs[0]) + ",)"
      else "(" + Join(", ", seq(|xs|, k requires 0 <= k < |xs| => Repr(xs[k]))) + ")"
    case VDict(es) =>
      "{" + Join(", ", seq(|es|, k requires 0 <= k < |es| => Repr(es[k].0) + ": " + Repr(es[k].1))) + "}"
    case VOther(_, text) => text
  }

  /** `repr(v)`: like `str(v)` except that strings are quoted. */
  function Repr(v: Value): string
    decreases v, 2
  {
    if v.VStr? then "'" + v.s + "'" else Show(v)
  }

  /**
   * What Python's `for x in v` iterates over: list and tuple elements, the one-character strings
   * of a string, the keys of a dict. `None` when `v` is not iterable (iteration raises TypeError).
   */
  function Items(v: Value): Option<seq<Value>>
  {
    match v
    case VList(xs) => Some(xs)
    case VTuple(xs) => Some(xs)
    case VStr(s) => Some(seq(|s|, k requires 0 <= k < |s| => VStr([s[k]])))
    case VDict(es) => Some(seq(|es|, k requires 0 <= k < |es| => es[k].0))
    case _ => None
  }

  /** The message of the TypeError raised by iterating over a non-iterable value. */
  function NotIterableMessage(v: Value): string
  {
    "'" + TypeName(v) + "' object is not iterable"
  }

  /** The text of a validation error listing `issues` (the exact pydantic layout is not modelled). */
  function ValidationMessage(model: string, issues: seq<string>): string
  {
    IntToString(|issues|) + (if |issues| == 1 then " validation error for " else " validation errors for ")
    + model + "\n" + Join("\n", issues)
  }
}
