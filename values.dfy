/** Decoded JSON values as the stats API returns them, the Python exceptions
    the ingestion path can raise, and the Option/Result wrappers used for them. */
module Values {

  /** A decoded JSON document. Floating-point numbers are not modelled. */
  datatype Json =
    | Null
    | Bool(b: bool)
    | Int(i: int)
    | Str(s: string)
    | List(items: seq<Json>)
    | Object(fields: map<string, Json>)

  datatype Option<+T> = None | Some(value: T)

  datatype Result<+T> = Ok(value: T) | Err(fault: Fault)

  /** The exceptions that end an operation of the ingestion path. */
  datatype Fault =
    | TypeError            // iterating a scalar, `in` on a scalar, an unhashable dict key
    | AttributeError       // `.get` on something that is not a dict
    | KeyError(key: string)
    | InvalidPlayerId      // the ValueError raised by add_player_stats
    | UnsupportedType      // sqlite3 cannot bind a list or a dict
    | BindingCount         // wrong number of values for the placeholders
    | ConstraintViolation  // a UNIQUE column already holds the value
    | NetworkError         // the request failed

  /** `d.get(key)` on a dict: None (JSON null) when the key is absent. */
  function Get(d: map<string, Json>, key: string): (r: Json)
    ensures key in d ==> r == d[key]
    ensures key !in d ==> r == Null
  {
    if key in d then d[key] else Null
  }

  /** `d.get(key, default)` on a dict. */
  function GetOr(d: map<string, Json>, key: string, default: Json): (r: Json)
    ensures key in d ==> r == d[key]
    ensures key !in d ==> r == default
  {
    if key in d then d[key] else default
  }

  /** A value sqlite3 can bind as a statement parameter. */
  predicate Bindable(j: Json) {
    !j.List? && !j.Object?
  }

  /** The items a Python `for` loop visits when it iterates over `j`, for a
      loop whose body begins with `.get` on the item: a list yields its
      items; an empty dict or string yields nothing; a non-empty dict or
      string yields strings, on which that `.get` raises AttributeError; any
      other value is not iterable. */
  function Iterate(j: Json): (r: Result<seq<Json>>)
    ensures r.Ok? <==> (j.List? || j == Object(map[]) || j == Str(""))
    ensures j.List? ==> r == Ok(j.items)
    ensures r.Ok? && !j.List? ==> r.value == []
    ensures r.Err? ==> r.fault == (if j.Object? || j.Str? then AttributeError else TypeError)
  {
    match j
    case List(xs) => Ok(xs)
    case Object(m) => if m == map[] then Ok([]) else Err(AttributeError)
    case Str(s) => if s == "" then Ok([]) else Err(AttributeError)
    case _ => Err(TypeError)
  }
}
