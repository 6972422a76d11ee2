/** Dynamically typed Python values, and the `isinstance` tests the exercises use. */
module PyValues {

  import opened Wrappers

  /** A Python value: None, bool, int, float (as an exact real), str, list or a dict with string keys. */
  datatype Value =
    | VNone
    | VBool(b: bool)
    | VInt(i: int)
    | VReal(r: real)
    | VStr(s: string)
    | VList(items: seq<Value>)
    | VDict(entries: map<string, Value>)

  /** `isinstance(v, int)`: in Python `bool` is a subclass of `int`, so booleans pass. */
  predicate IsInt(v: Value) {
    v.VInt? || v.VBool?
  }

  /** `isinstance(v, (int, float))`. */
  predicate IsNumber(v: Value) {
    IsInt(v) || v.VReal?
  }

  /** The integer an `int` (or `bool`) stands for: `True == 1`, `False == 0`. */
  function IntVal(v: Value): (n: int)
    requires IsInt(v)
    ensures v.VBool? ==> n == (if v.b then 1 else 0)
    ensures v.VInt? ==> n == v.i
  {
    match v
    case VBool(b) => if b then 1 else 0
    case VInt(i) => i
  }

  /** The number a numeric value stands for, as Python compares and converts it with `float(v)`. */
  function NumVal(v: Value): (x: real)
    requires IsNumber(v)
    ensures IsInt(v) ==> x == IntVal(v) as real
    ensures v.VReal? ==> x == v.r
  {
    if v.VReal? then v.r else IntVal(v) as real
  }

  /** `type(v).__name__` */
  function TypeName(v: Value): string {
    match v
    case VNone => "NoneType"
    case VBool(_) => "bool"
    case VInt(_) => "int"
    case VReal(_) => "float"
    case VStr(_) => "str"
    case VList(_) => "list"
    case VDict(_) => "dict"
  }

  /** Python `d[k]` on a value: succeeds only on a dict that holds the key
      (a missing key raises KeyError, indexing a non-dict with a string raises TypeError). */
  function Index(v: Value, key: string): (r: Option<Value>)
    ensures r.Some? <==> v.VDict? && key in v.entries
    ensures r.Some? ==> r.value == v.entries[key]
  {
    match v
    case VDict(m) => if key in m then Some(m[key]) else None
    case _ => None
  }
}
