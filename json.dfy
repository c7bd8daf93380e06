/** Decoded JSON as Python's `json.load` hands it to the manifest loader, and the
    few Python operations the loader applies to it: `d[key]`, `d.get(key, default)`
    and iteration with `for x in v`. */
module Json {

  /** A decoded JSON document. Python's `None` is `Null`. */
  datatype Value =
    | Null
    | Bool(b: bool)
    | Num(n: int)
    | Str(s: string)
    | Arr(items: seq<Value>)
    | Obj(fields: map<string, Value>)

  /** The exceptions a lookup or an iteration on decoded JSON raises. */
  datatype PyError = KeyError(key: string) | TypeError | AttributeError

  datatype Option<+T> = None | Some(value: T)

  /** The outcome of a Python computation that may raise. */
  datatype Result<+T> = Ok(value: T) | Err(error: PyError) {
    predicate IsFailure() { Err? }

    function PropagateFailure<U>(): Result<U>
      requires Err?
    {
      Err(error)
    }

    function Extract(): T
      requires Ok?
    {
      value
    }
  }

  /** `v[key]`: a `KeyError` for a dict without `key`, a `TypeError` for any
      other value (lists, strings and `None` are not subscriptable by a string). */
  function Subscript(v: Value, key: string): (r: Result<Value>)
    ensures r.Ok? <==> v.Obj? && key in v.fields
  {
    if !v.Obj? then Err(TypeError)
    else if key in v.fields then Ok(v.fields[key])
    else Err(KeyError(key))
  }

  /** `d.get(key, default)` on a dict. */
  function Get(fields: map<string, Value>, key: string, default: Value): Value {
    if key in fields then fields[key] else default
  }

  /** The elements a `for` loop of the loader visits when it iterates over `v`.
      A list yields its items; an empty string or dict yields nothing. A non-empty
      string or dict yields strings (its characters or keys), and every loop of the
      loader fails on a string element at once, so it is reported as failing here.
      Numbers, booleans and `None` are not iterable. */
  function Elements(v: Value): (r: Result<seq<Value>>)
    ensures v.Arr? ==> r == Ok(v.items)
    ensures r.Ok? && !v.Arr? ==> r.value == []
  {
    match v
    case Arr(items) => Ok(items)
    case Str(s) => if s == "" then Ok([]) else Err(TypeError)
    case Obj(fields) => if fields == map[] then Ok([]) else Err(TypeError)
    case _ => Err(TypeError)
  }
}
