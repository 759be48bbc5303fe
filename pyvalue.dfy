/** The dictionaries the bots pass around (event contents, run summaries) as JSON-like
    values, with the few Python operations on them that the core relies on:
    truthiness, `dict.get`, `x or {}`, numeric comparison and `== 0`. */
module PyValue {
  import opened Wrappers

  /** A Python value as it appears in a decoded JSON object. */
  datatype Value =
    | Null
    | Bool(b: bool)
    | Int(i: int)
    | Float(r: real)
    | Str(s: string)
    | List(items: seq<Value>)
    | Obj(fields: map<string, Value>)

  /** A computation that either yields a value or raises (the kind of exception is
      not distinguished: every caller in the core treats them alike). */
  datatype Result<T> = Ok(value: T) | Raises

  type Dict = map<string, Value>

  /** Python truthiness: `None`, `False`, zero, and empty strings, lists and dicts
      are false. */
  predicate Truthy(v: Value)
  {
    match v
    case Null => false
    case Bool(b) => b
    case Int(i) => i != 0
    case Float(r) => r != 0.0
    case Str(s) => s != []
    case List(items) => items != []
    case Obj(fields) => fields != map[]
  }

  /** `d.get(k, default)`. */
  function GetOr(d: Dict, k: string, default: Value): (v: Value)
    ensures k in d ==> v == d[k]
    ensures k !in d ==> v == default
  {
    if k in d then d[k] else default
  }

  /** `d.get(k)`: `None` when `k` is absent. */
  function Get(d: Dict, k: string): Value
  {
    GetOr(d, k, Null)
  }

  /** `v or {}` followed by a `.get` on the result: a falsy value stands for the empty
      dict, a truthy dict is itself, and any other truthy value has no `.get` and
      raises. */
  function Section(v: Value): (r: Result<Dict>)
    ensures !Truthy(v) ==> r == Ok(map[])
    ensures v.Obj? ==> r == Ok(v.fields)
    ensures r.Raises? <==> Truthy(v) && !v.Obj?
  {
    if !Truthy(v) then Ok(map[])
    else match v
      case Obj(m) => Ok(m)
      case _ => Raises
  }

  /** The value of a number (`bool` is a subclass of `int` in Python); other
      values cannot be ordered against a number or formatted with `:.1f`. */
  function AsNumber(v: Value): Option<real>
  {
    match v
    case Bool(b) => Some(if b then 1.0 else 0.0)
    case Int(i) => Some(i as real)
    case Float(r) => Some(r)
    case _ => None
  }

  /** Python's `v == 0`: true exactly for the numbers equal to zero, `False`
      included. */
  predicate EqualsZero(v: Value)
  {
    AsNumber(v) == Some(0.0)
  }

  /** `int(v)` for the number and falsy cases that `int(x or 0)` meets: floats are
      truncated toward zero. */
  function TruncateToInt(r: real): (n: int)
    ensures r >= 0.0 ==> n as real <= r < n as real + 1.0
    ensures r < 0.0 ==> n as real - 1.0 < r <= n as real
  {
    if r >= 0.0 then r.Floor else -((-r).Floor)
  }
}
