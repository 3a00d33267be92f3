/** JSON values as the adapter handles them, with the JavaScript notions the
    adapter relies on: `undefined` for a missing property, truthiness, and the
    object spread `{...v}`. */
module JsonValues {

  datatype Option<T> = None | Some(value: T)

  /** The outcome of adapter code that may throw: the only exception it can
      raise is a `TypeError` from a property read on `null` or a call of a
      missing `forEach`. */
  datatype Result<T> = Ok(value: T) | TypeError

  /** A JSON value. Numbers are integers: the adapter only ever compares them
      with `=== 1`. */
  datatype Json =
    | JNull
    | JBool(b: bool)
    | JNum(n: int)
    | JStr(s: string)
    | JArr(elems: seq<Json>)
    | JObj(fields: map<string, Json>)

  /** JavaScript truthiness of the result of a property read; `None` is
      `undefined`. Arrays and objects, even empty ones, are truthy. */
  predicate Truthy(p: Option<Json>) {
    match p
    case None => false
    case Some(JNull) => false
    case Some(JBool(b)) => b
    case Some(JNum(n)) => n != 0
    case Some(JStr(s)) => s != ""
    case Some(JArr(_)) => true
    case Some(JObj(_)) => true
  }

  /** `j.k` (and `j?.k`): only objects carry named properties here, so a read
      of a named property of any other value is `undefined`. */
  function Field(j: Json, k: string): Option<Json> {
    if j.JObj? && k in j.fields then Some(j.fields[k]) else None
  }

  /** The decimal property name JavaScript uses for array index `i`. */
  function IndexKey(i: nat): string {
    if i < 10 then ["0123456789"[i]] else IndexKey(i / 10) + ["0123456789"[i % 10]]
  }

  /** The own enumerable properties of an array, keyed by index. */
  function SpreadElems(s: seq<Json>): map<string, Json> {
    if s == [] then map[] else SpreadElems(s[..|s| - 1])[IndexKey(|s| - 1) := s[|s| - 1]]
  }

  /** The own enumerable properties of a string: one single-character string
      per index. */
  function SpreadChars(s: string): map<string, Json> {
    if s == [] then map[] else SpreadChars(s[..|s| - 1])[IndexKey(|s| - 1) := JStr([s[|s| - 1]])]
  }

  /** The properties of `{...v}`: an object is copied key for key, an array
      or a string contributes one property per index, and every other value
      contributes none. */
  function Spread(v: Json): map<string, Json> {
    match v
    case JObj(m) => m
    case JArr(s) => SpreadElems(s)
    case JStr(s) => SpreadChars(s)
    case _ => map[]
  }
}
