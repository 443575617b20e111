/** The JSON-like values that `to_dict` produces and `from_dict` consumes.
    A `datetime` is serialised with `isoformat()`; the model keeps such a
    string as `Time(t)` holding the integer timestamp it denotes. */
module PyDict {
  import opened Errors

  datatype Value =
    | Str(s: string)
    | Bool(b: bool)
    | Int(i: int)
    | Time(t: int)
    | Null
    | List(items: seq<Value>)
    | Obj(fields: map<string, Value>)

  type Dict = map<string, Value>

  /** Python truthiness of a value (`if data.get(key):`). */
  predicate Truthy(v: Value)
  {
    match v
    case Str(s) => s != []
    case Bool(b) => b
    case Int(i) => i != 0
    case Time(_) => true
    case Null => false
    case List(items) => items != []
    case Obj(fields) => fields != map[]
  }

  /** `data.get(key, default)`. */
  function Get(d: Dict, key: string, default: Value): (v: Value)
    ensures key in d ==> v == d[key]
    ensures key !in d ==> v == default
  {
    if key in d then d[key] else default
  }

  /** `data[key]` for a key that must hold a string. */
  function StrField(d: Dict, key: string): (r: Result<string>)
    ensures key !in d ==> r == Err(KeyError(key))
    ensures r.Ok? ==> key in d && d[key] == Str(r.value)
  {
    if key !in d then Err(KeyError(key))
    else if d[key].Str? then Ok(d[key].s)
    else Err(TypeError(key + " is not a string"))
  }

  /** `data.get(key, default)` for a flag. */
  function BoolField(d: Dict, key: string, default: bool): (r: Result<bool>)
    ensures key !in d ==> r == Ok(default)
    ensures key in d ==> (r.Ok? <==> d[key].Bool?) && (r.Ok? ==> d[key] == Bool(r.value))
  {
    var v := Get(d, key, Bool(default));
    if v.Bool? then Ok(v.b) else Err(TypeError(key + " is not a bool"))
  }

  /** A stored timestamp when the entry is truthy, else the time `now` the
      constructor substitutes. */
  function TimeField(d: Dict, key: string, now: int): (r: Result<int>)
    ensures (key !in d || !Truthy(d[key])) ==> r == Ok(now)
    ensures key in d && d[key].Time? ==> r == Ok(d[key].t)
  {
    var v := Get(d, key, Null);
    if !Truthy(v) then Ok(now)
    else if v.Time? then Ok(v.t)
    else Err(ValueError("Invalid isoformat string"))
  }

  /** `data.get(key, default)` for an entry that must hold a string. */
  function StrGet(d: Dict, key: string, default: string): (r: Result<string>)
    ensures key !in d ==> r == Ok(default)
    ensures key in d ==> (r.Ok? <==> d[key].Str?) && (r.Ok? ==> d[key] == Str(r.value))
  {
    var v := Get(d, key, Str(default));
    if v.Str? then Ok(v.s) else Err(TypeError(key + " is not a string"))
  }

  /** `data.get(key, default)` for an entry that must hold an integer. */
  function IntGet(d: Dict, key: string, default: int): (r: Result<int>)
    ensures key !in d ==> r == Ok(default)
    ensures key in d ==> (r.Ok? <==> d[key].Int?) && (r.Ok? ==> d[key] == Int(r.value))
  {
    var v := Get(d, key, Int(default));
    if v.Int? then Ok(v.i) else Err(TypeError(key + " is not an integer"))
  }
}
