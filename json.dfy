/** The decoded body of a lookup response, as `response.json()` hands it to
    the handler: JSON null, booleans, integers, strings, arrays and objects
    become Python `None`, `bool`, `int`, `str`, `list` and `dict`. */
module Json {

  datatype Value =
    | Null
    | Bool(b: bool)
    | Int(i: int)
    | Str(s: string)
    | List(items: seq<Value>)
    | Obj(fields: map<string, Value>)

  /** `d.get(key, default)` on a decoded object. */
  function Get(fields: map<string, Value>, key: string, default: Value): (v: Value)
    ensures key in fields ==> v == fields[key]
    ensures key !in fields ==> v == default
  {
    if key in fields then fields[key] else default
  }

  /** Python's `v == 0`: `False` is the integer 0, every other non-number
      compares unequal. */
  predicate EqualsZero(v: Value): (b: bool)
    ensures b ==> v.Int? || v.Bool?
    ensures v.Int? ==> (b <==> v.i == 0)
    ensures v.Bool? ==> (b <==> !v.b)
  {
    v == Int(0) || v == Bool(false)
  }

  /** `type(v).__name__` of the decoded value. */
  function TypeName(v: Value): (name: string)
    ensures name != ""
    ensures name == "dict" <==> v.Obj?
    ensures name == "NoneType" <==> v.Null?
  {
    match v
    case Null => "NoneType"
    case Bool(_) => "bool"
    case Int(_) => "int"
    case Str(_) => "str"
    case List(_) => "list"
    case Obj(_) => "dict"
  }
}
