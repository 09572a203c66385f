/** Webhook payloads as the billing service receives them: JSON-like
    values, and the Python conversions (`str()`, `int()`, truthiness,
    `payload.get(key, default)`) the service applies to their fields.

    A datetime or a nested object carries the text Python's `str()` gives
    it, so that `str()` stays total here as it is in Python.
 */
module Payload {
  import opened Common
  import opened Text

  datatype Json =
    | JNull
    | JBool(b: bool)
    | JInt(i: int)
    | JStr(s: string)
    /** An aware datetime, as seconds since the epoch. */
    | JTime(t: int, text: string)
    | JDict(fields: map<string, Json>, text: string)

  /** `payload.get(key, default)`. */
  function Get(fields: map<string, Json>, key: string, default: Json): (v: Json)
    ensures key in fields ==> v == fields[key]
    ensures key !in fields ==> v == default
  {
    if key in fields then fields[key] else default
  }

  /** Python truthiness. */
  predicate JsonTruthy(v: Json) {
    match v
    case JNull => false
    case JBool(b) => b
    case JInt(i) => i != 0
    case JStr(s) => s != ""
    case JTime(_, _) => true
    case JDict(fields, _) => fields != map[]
  }

  /** `str(v)`. */
  function PyStr(v: Json): (s: string)
    ensures v.JStr? ==> s == v.s
    ensures v.JNull? ==> s == "None"
  {
    match v
    case JNull => "None"
    case JBool(b) => if b then "True" else "False"
    case JInt(i) => IntToString(i)
    case JStr(s) => s
    case JTime(_, text) => text
    case JDict(_, text) => text
  }

  /** `int(v)`: integers and booleans convert, strings are parsed (a
      malformed one raises ValueError), anything else raises TypeError. */
  function PyInt(v: Json): (r: Result<int>)
    ensures v.JInt? ==> r == Ok(v.i)
    ensures v.JNull? || v.JTime? || v.JDict? ==> r == Err(TypeError)
    ensures v.JStr? ==> r == ParseInt(v.s)
  {
    match v
    case JInt(i) => Ok(i)
    case JBool(b) => Ok(if b then 1 else 0)
    case JStr(s) => ParseInt(s)
    case _ => Err(TypeError)
  }

  /** `int(str(n))` gives back `n`: an integer survives a round trip
      through its decimal text. */
  lemma {:induction false} PyIntOfPyStr(n: int)
    ensures PyInt(JStr(PyStr(JInt(n)))) == Ok(n)
  {
    IntRoundTrip(n);
  }

  /** `_parse_optional_datetime`: a falsy value is absent, a datetime is
      kept, a string is parsed by `isoParse` (which stands for
      `datetime.fromisoformat` after the 'Z' suffix is read as UTC and
      answers None where Python raises ValueError), and anything else
      raises TypeError. */
  function ParseOptionalDatetime(v: Json, isoParse: string -> Option<int>): (r: Result<Option<int>>)
    ensures !JsonTruthy(v) ==> r == Ok(None)
    ensures JsonTruthy(v) && v.JTime? ==> r == Ok(Some(v.t))
    ensures JsonTruthy(v) && v.JStr? ==> (r.Ok? <==> isoParse(v.s).Some?)
    ensures JsonTruthy(v) && v.JStr? && r.Ok? ==> r.value == isoParse(v.s)
    ensures r.Err? ==> r.error == ValueError || r.error == TypeError
    ensures r.Ok? && r.value.Some? ==> JsonTruthy(v) && (v.JTime? || v.JStr?)
  {
    if !JsonTruthy(v) then Ok(None)
    else match v
      case JTime(t, _) => Ok(Some(t))
      case JStr(s) => if isoParse(s).Some? then Ok(isoParse(s)) else Err(ValueError)
      case _ => Err(TypeError)
  }

  /** `_safe_metadata`: a dict becomes a string-to-string map through
      `str()` on its values; anything else becomes the empty map. */
  function SafeMetadata(v: Json): (m: map<string, string>)
    ensures v.JDict? ==> m.Keys == v.fields.Keys
    ensures v.JDict? ==> forall k :: k in m ==> m[k] == PyStr(v.fields[k])
    ensures !v.JDict? ==> m == map[]
  {
    match v
    case JDict(fields, _) => map k | k in fields :: PyStr(fields[k])
    case _ => map[]
  }

  /** String-valued metadata read back through `_safe_metadata` is itself. */
  lemma {:induction false} SafeMetadataOfStrings(m: map<string, string>, text: string)
    ensures SafeMetadata(JDict(map k | k in m :: JStr(m[k]), text)) == m
  {
  }
}
