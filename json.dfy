/** JSON values as the route handlers receive them from `JSON.parse` or
    `req.json()`, with the JavaScript operations the handlers apply to them:
    truthiness, property access and optional chaining. */
module Json {
  import opened Wrappers

  datatype Value =
    | Null
    | Bool(b: bool)
    | Num(n: real)
    | Str(s: string)
    | Arr(items: seq<Value>)
    | Obj(fields: map<string, Value>)

  /** `JSON.parse` as an oracle: `None` is a thrown `SyntaxError`. */
  type Parser = string -> Option<Value>

  /** JavaScript truthiness: `null`, `false`, `0` and `""` are falsy. */
  predicate Truthy(v: Value) {
    match v
    case Null => false
    case Bool(b) => b
    case Num(n) => n != 0.0
    case Str(s) => s != ""
    case _ => true
  }

  /** `!!o` for a property that may be `undefined`. */
  predicate Present(o: Option<Value>) {
    o.Some? && Truthy(o.value)
  }

  /** `v[key]` on a value that is not `null`: the own property of an object,
      `undefined` (None) on anything else. */
  function Member(v: Value, key: string): Option<Value> {
    if v.Obj? && key in v.fields then Some(v.fields[key]) else None
  }

  /** `v[0]` on a value that is not `null`. */
  function First(v: Value): Option<Value> {
    match v
    case Arr(items) => if items != [] then Some(items[0]) else None
    case Obj(m) => if "0" in m then Some(m["0"]) else None
    case Str(s) => if s != "" then Some(Str([s[0]])) else None
    case _ => None
  }

  /** `o?.[key]`: optional chaining stops at `undefined` and `null`. */
  function ThenMember(o: Option<Value>, key: string): Option<Value> {
    match o
    case None => None
    case Some(v) => Member(v, key)
  }

  /** `o?.[0]`. */
  function ThenFirst(o: Option<Value>): Option<Value> {
    match o
    case None => None
    case Some(v) => First(v)
  }

  /** What the JavaScript engine (V8) says when code reads a property of `null`. */
  function NullReadMessage(key: string): string {
    "Cannot read properties of null (reading '" + key + "')"
  }

  /** A property that the source uses as text: missing, falsy, or a string. */
  predicate Textual(o: Option<Value>) {
    o.None? || !Truthy(o.value) || o.value.Str?
  }

  /** `o || ""` for a textual property. */
  function TextOf(o: Option<Value>): (r: string)
    requires Textual(o)
    ensures r != "" <==> Present(o)
    ensures Present(o) ==> o.value == Str(r)
  {
    if Present(o) then o.value.s else ""
  }
}
