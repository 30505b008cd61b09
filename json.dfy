/** The JSON values that reach the two request handlers, and the handful of
    Python operations the handlers apply to them: truthiness, `key in value`,
    `value[key]`, `value[i]`, `len(value)` and `dict.get`.  Each of them fails
    (with the generic internal error) exactly where Python raises. */
module Json {
  import opened Wrappers
  import Text

  datatype Json =
    | JNull
    | JBool(b: bool)
    | JNum(n: real)
    | JStr(s: string)
    | JArr(items: seq<Json>)
    | JObj(fields: map<string, Json>)

  /** The error bodies the handlers answer with.  The first three are the
      400 answers of the route handler; InternalServerError is the 500 answer
      both handlers give for any exception raised while serving a request. */
  datatype ApiError =
    | EmptyRequestBody
    | InvalidRoutesFormat
    | MissingRoutesOrCoordinates
    | InternalServerError

  /** Python's truth value of a decoded JSON value. */
  predicate Truthy(j: Json) {
    match j
    case JNull => false
    case JBool(b) => b
    case JNum(n) => n != 0.0
    case JStr(s) => s != []
    case JArr(xs) => xs != []
    case JObj(m) => m != map[]
  }

  /** `m.get(key, default)` on a JSON object. */
  function Get(m: map<string, Json>, key: string, default: Json): (r: Json)
    ensures key in m ==> r == m[key]
    ensures key !in m ==> r == default
  {
    if key in m then m[key] else default
  }

  /** `key in v`: a key test on an object, an element test on a list, a
      substring test on a string; a TypeError on anything else. */
  function HasKey(v: Json, key: string): (r: Result<bool, ApiError>)
    ensures v.JObj? ==> r == Success(key in v.fields)
    ensures v.JArr? ==> r == Success(JStr(key) in v.items)
    ensures v.JStr? ==> r == Success(Text.Contains(v.s, key))
    ensures r.Failure? <==> !(v.JObj? || v.JArr? || v.JStr?)
    ensures r.Failure? ==> r.error == InternalServerError
  {
    match v
    case JObj(m) => Success(key in m)
    case JArr(xs) => Success(JStr(key) in xs)
    case JStr(s) => Success(Text.Contains(s, key))
    case _ => Failure(InternalServerError)
  }

  /** `v[key]` with a string key: only an object that holds the key answers;
      a list or a string raises a TypeError, an object without it a KeyError. */
  function Lookup(v: Json, key: string): (r: Result<Json, ApiError>)
    ensures r.Success? <==> v.JObj? && key in v.fields
    ensures r.Success? ==> r.value == v.fields[key]
    ensures r.Failure? ==> r.error == InternalServerError
  {
    if v.JObj? && key in v.fields then Success(v.fields[key]) else Failure(InternalServerError)
  }

  /** `len(v)`: defined for strings, lists and objects only. */
  function Len(v: Json): (r: Result<nat, ApiError>)
    ensures v.JArr? ==> r == Success(|v.items|)
    ensures v.JStr? ==> r == Success(|v.s|)
    ensures v.JObj? ==> r == Success(|v.fields|)
    ensures r.Failure? <==> !(v.JArr? || v.JStr? || v.JObj?)
    ensures r.Failure? ==> r.error == InternalServerError
  {
    match v
    case JArr(xs) => Success(|xs|)
    case JStr(s) => Success(|s|)
    case JObj(m) => Success(|m|)
    case _ => Failure(InternalServerError)
  }

  /** `v[i]` with an integer index: a list element, or the one-character string
      at that position.  An object (whose keys are strings) raises a KeyError,
      an index past the end an IndexError, any other value a TypeError. */
  function Item(v: Json, i: nat): (r: Result<Json, ApiError>)
    ensures r.Success? <==> (v.JArr? && i < |v.items|) || (v.JStr? && i < |v.s|)
    ensures r.Success? && v.JArr? ==> r.value == v.items[i]
    ensures r.Success? && v.JStr? ==> r.value == JStr([v.s[i]])
    ensures r.Failure? ==> r.error == InternalServerError
  {
    match v
    case JArr(xs) => if i < |xs| then Success(xs[i]) else Failure(InternalServerError)
    case JStr(s) => if i < |s| then Success(JStr([s[i]])) else Failure(InternalServerError)
    case _ => Failure(InternalServerError)
  }

  /** The number a value stands for in Python arithmetic: a JSON number, or a
      boolean (Python's bool is a subclass of int). */
  function Number(v: Json): (r: Option<real>)
    ensures r.Some? <==> v.JNum? || v.JBool?
    ensures v.JNum? ==> r == Some(v.n)
    ensures v.JBool? ==> r == Some(if v.b then 1.0 else 0.0)
  {
    match v
    case JNum(n) => Some(n)
    case JBool(b) => Some(if b then 1.0 else 0.0)
    case _ => None
  }
}
