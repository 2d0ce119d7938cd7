/**
 * Decoded JSON as Python's `json` module hands it to the code (dicts, lists, strings,
 * integers, booleans and None), with the few dynamic-typing rules the core runs into:
 * truthiness, `dict.get`, `for x in value`, `value[0]`, `pmid in value`, and `str(value)`
 * inside an f-string. Each rule returns `None` where Python raises.
 */
module JsonData {
  import opened Wrappers
  import opened Text

  datatype Json =
    | Null
    | Bool(b: bool)
    | Num(n: int)
    | Str(s: string)
    | Arr(items: seq<Json>)
    | Obj(fields: map<string, Json>)

  /** Python truthiness: `None`, `False`, `0`, `""`, `[]` and `{}` are false. */
  predicate Truthy(j: Json) {
    match j
    case Null => false
    case Bool(b) => b
    case Num(n) => n != 0
    case Str(s) => s != ""
    case Arr(xs) => xs != []
    case Obj(m) => m != map[]
  }

  /** `j.get(key, default)`: only a dict has `get`. */
  function Get(j: Json, key: string, default: Json): (r: Option<Json>)
    ensures r.Some? <==> j.Obj?
    ensures j.Obj? && key in j.fields ==> r == Some(j.fields[key])
    ensures j.Obj? && key !in j.fields ==> r == Some(default)
  {
    match j
    case Obj(m) => Some(if key in m then m[key] else default)
    case _ => None
  }

  /**
   * The elements `for x in j` visits, for a loop whose body calls `x.get`: a list gives its
   * items; an empty string or dict gives none; a non-empty string or dict yields strings,
   * on which `get` raises, and a number, boolean or None is not iterable.
   */
  function Elements(j: Json): (r: Option<seq<Json>>)
    ensures r.Some? <==> j.Arr? || j == Str("") || j == Obj(map[])
    ensures j.Arr? ==> r == Some(j.items)
    ensures r.Some? && !j.Arr? ==> r == Some([])
  {
    match j
    case Arr(xs) => Some(xs)
    case Str(s) => if s == "" then Some([]) else None
    case Obj(m) => if m == map[] then Some([]) else None
    case _ => None
  }

  /** `j[0]`: the first item of a list or the first character of a string. */
  function First(j: Json): (r: Option<Json>)
    ensures r.Some? <==> (j.Arr? && j.items != []) || (j.Str? && j.s != "")
    ensures j.Arr? && j.items != [] ==> r == Some(j.items[0])
    ensures j.Str? && j.s != "" ==> r == Some(Str(j.s[..1]))
  {
    match j
    case Arr(xs) => if xs != [] then Some(xs[0]) else None
    case Str(s) => if s != "" then Some(Str(s[..1])) else None
    case _ => None   // a dict has no key 0 (JSON keys are strings); other types are not subscriptable
  }

  /**
   * Looking up `key` the way `if key in j: j[key]` does: `Some(None)` when the key is absent,
   * `Some(Some(v))` when a dict holds it. A list or string that contains the key cannot be
   * subscripted by a string, and `in` on a number, boolean or None raises.
   */
  function Lookup(j: Json, key: string): (r: Option<Option<Json>>)
    ensures j.Obj? ==> r == Some(if key in j.fields then Some(j.fields[key]) else None)
    ensures r.Some? && r.value.Some? ==> j.Obj?
  {
    match j
    case Obj(m) => Some(if key in m then Some(m[key]) else None)
    case Arr(xs) => if Str(key) in xs then None else Some(None)
    case Str(s) => if Contains(s, key) then None else Some(None)
    case _ => None
  }

  /** `str(j)` as an f-string interpolates it, for the scalar types; lists and dicts are not modelled. */
  function Format(j: Json): (r: Option<string>)
    ensures j.Str? ==> r == Some(j.s)
    ensures j.Null? ==> r == Some("None")
    ensures j.Bool? ==> r == Some(if j.b then "True" else "False")
    ensures j.Num? ==> r == Some(IntToString(j.n))
    ensures r.None? <==> j.Arr? || j.Obj?
  {
    match j
    case Null => Some("None")
    case Bool(b) => Some(if b then "True" else "False")
    case Num(n) => Some(IntToString(n))
    case Str(s) => Some(s)
    case _ => None
  }

  /** Python's name of the type of `j`, as it appears in an `AttributeError`. */
  function TypeName(j: Json): string {
    match j
    case Null => "NoneType"
    case Bool(_) => "bool"
    case Num(_) => "int"
    case Str(_) => "str"
    case Arr(_) => "list"
    case Obj(_) => "dict"
  }
}

/** The HTTP boundary: outgoing GET requests, their replies, and the responses the routes send back. */
module Http {
  import opened JsonData

  /** A GET request: the URL and its query parameters in order (the `requests` library renders numbers with `str`). */
  datatype Request = Request(url: string, params: seq<(string, string)>)

  /**
   * What a GET gives the caller: `Failed` covers a transport exception or timeout, a status
   * that is not OK, and a body that is not JSON; `Delivered` carries the decoded body.
   */
  datatype Reply = Failed | Delivered(body: Json)

  /** A response of a route: the status code and the JSON body. */
  datatype Response = Response(status: int, body: Json)

  /** `jsonify({'error': message})`. */
  function ErrorBody(message: string): (j: Json)
    ensures j.Obj? && j.fields.Keys == {"error"} && j.fields["error"] == Str(message)
  {
    Obj(map["error" := Str(message)])
  }
}
