/**
  A decoded JSON document as the scraper sees it after `json.loads`, and the
  three Python operations the extractors apply to it: truthiness (`if not x`),
  `d.get(key, default)` and `x[0]`.
 */
module Json {
  import opened Wrappers

  /** None, bool, int, str, list and dict; JSON numbers are taken as integers. */
  datatype Value =
    | Null
    | Bool(b: bool)
    | Num(n: int)
    | Str(s: string)
    | Arr(items: seq<Value>)
    | Obj(fields: map<string, Value>)

  /** The exceptions a lookup can raise. */
  datatype Fault =
    | MissingKey   // KeyError
    | OutOfRange   // IndexError
    | WrongType    // AttributeError or TypeError

  const EmptyObj: Value := Obj(map[])
  const EmptyArr: Value := Arr([])

  /** Python truthiness: None, False, 0 and empty str, list and dict are false. */
  predicate Truthy(v: Value) {
    match v
    case Null => false
    case Bool(b) => b
    case Num(n) => n != 0
    case Str(s) => s != []
    case Arr(items) => items != []
    case Obj(fields) => fields != map[]
  }

  /**
    `v.get(key, default)`: a missing key gives the default, a key present with
    any value (null included) gives that value, and anything but a dict has no
    `get` at all.
   */
  function Get(v: Value, key: string, default: Value): (r: Result<Value, Fault>)
    ensures r.Success? <==> v.Obj?
    ensures v.Obj? && key in v.fields ==> r == Success(v.fields[key])
    ensures v.Obj? && key !in v.fields ==> r == Success(default)
  {
    match v
    case Obj(fields) => if key in fields then Success(fields[key]) else Success(default)
    case _ => Failure(WrongType)
  }

  /**
    `v[0]`: the first item of a list, the first character of a str (itself a
    str), a KeyError for a dict (JSON keys are never the integer 0) and a
    TypeError for anything else.
   */
  function First(v: Value): (r: Result<Value, Fault>)
    ensures Truthy(v) && v.Arr? ==> r == Success(v.items[0])
    ensures Truthy(v) && v.Str? ==> r == Success(Str([v.s[0]]))
    ensures (v.Arr? || v.Str?) && !Truthy(v) ==> r == Failure(OutOfRange)
    ensures v.Obj? ==> r == Failure(MissingKey)
    ensures !(v.Arr? || v.Str? || v.Obj?) ==> r == Failure(WrongType)
  {
    match v
    case Arr(items) => if items == [] then Failure(OutOfRange) else Success(items[0])
    case Str(s) => if s == [] then Failure(OutOfRange) else Success(Str([s[0]]))
    case Obj(_) => Failure(MissingKey)
    case _ => Failure(WrongType)
  }

  /** Python's `str(v)` for scalars; a list or dict is not rendered (see README). */
  function Show(v: Value): string {
    match v
    case Null => "None"
    case Bool(b) => if b then "True" else "False"
    case Num(n) => if n < 0 then "-" + Decimal(-n) else Decimal(n)
    case Str(s) => s
    case _ => ""
  }

  function Decimal(n: nat): (r: string)
    ensures r != []
    decreases n
  {
    var digit := [(48 + n % 10) as char];
    if n < 10 then digit else Decimal(n / 10) + digit
  }
}
