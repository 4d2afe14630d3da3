/** The values a JSON parser hands back, as Python's `json.loads` and Go's
    `encoding/json` see them. Parsing itself is never modelled: every parser
    is a parameter of type `Parser`. */
module Json {
  import opened Wrappers

  /** A decoded JSON value. Numbers and booleans are opaque atoms compared by
      their literal text. */
  datatype Json =
    | JStr(str: string)
    | JNull
    | JAtom(literal: string)
    | JArray(items: seq<Json>)
    | JObject(fields: map<string, Json>)

  /** A partial parser from text to a decoded value; `None` is a decode error. */
  type Parser = string -> Option<Json>

  /** Python can use the value as a dictionary key (a `Counter` key): strings,
      `None`, numbers and booleans are hashable, lists and dicts are not. */
  predicate Hashable(v: Json) {
    v.JStr? || v.JNull? || v.JAtom?
  }

  /** `type(v).__name__` of a value `json.loads` returned: a literal with a
      fraction or an exponent, and `NaN`, `Infinity` and `-Infinity`, decode
      to `float`, `true` and `false` to `bool`, other numbers to `int`. */
  function TypeName(v: Json): string {
    match v
    case JStr(_) => "str"
    case JNull => "NoneType"
    case JAtom(lit) =>
      if lit == "true" || lit == "false" then "bool"
      else if '.' in lit || 'e' in lit || 'E' in lit || lit == "NaN" || lit == "Infinity" || lit == "-Infinity" then "float"
      else "int"
    case JArray(_) => "list"
    case JObject(_) => "dict"
  }

  /** `str(e)` of the `TypeError` raised when `v`, a list or a dict, is used
      as a key. */
  function UnhashableType(v: Json): string {
    "unhashable type: '" + TypeName(v) + "'"
  }

  /** The position of the first value that cannot be a key: where counting
      the values one after another raises. */
  function FirstUnhashable(xs: seq<Json>): (i: nat)
    requires exists k :: 0 <= k < |xs| && !Hashable(xs[k])
    ensures i < |xs| && !Hashable(xs[i])
    ensures forall k :: 0 <= k < i ==> Hashable(xs[k])
  {
    if !Hashable(xs[0]) then 0
    else
      assert forall k :: 1 <= k < |xs| ==> xs[k] == xs[1..][k - 1];
      1 + FirstUnhashable(xs[1..])
  }

  /** `str(e)` of the `TypeError` raised by counting `xs` in order: it names
      the type of the first value that cannot be a key. */
  function UnhashableIn(xs: seq<Json>): string
    requires exists k :: 0 <= k < |xs| && !Hashable(xs[k])
  {
    UnhashableType(xs[FirstUnhashable(xs)])
  }

  /** Python's `d.get(key, default)` on a decoded object. */
  function Get(fields: map<string, Json>, key: string, default: Json): Json
  {
    if key in fields then fields[key] else default
  }
}
