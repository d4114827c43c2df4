/**
 * JSON values as `JSON.parse` produces them (section 3 of RFC 8259), and the
 * JavaScript operations the parsers apply to them: property access,
 * truthiness, `typeof`, `Array.isArray` and `String(x)`.
 */
module Json {
  import opened Wrappers
  import opened Strings

  datatype Json =
    | JNull
    | JBool(b: bool)
    | JNumber(n: int)
    | JString(s: string)
    | JArray(items: seq<Json>)
    | JObject(members: seq<(string, Json)>)

  /** `JSON.parse`: a value, or `None` where it throws a `SyntaxError`. */
  type Parser = string -> Option<Json>

  /** A JavaScript evaluation that either produces a value or throws a `TypeError`. */
  datatype Outcome<+T> = Ok(value: T) | Throws

  /** The index of the member `key` that property access sees: the last one, as `JSON.parse` keeps the last duplicate. */
  function KeyIndex(members: seq<(string, Json)>, key: string): (r: Option<nat>)
    ensures r.Some? ==> r.value < |members| && members[r.value].0 == key
    ensures r.Some? ==> forall j :: r.value < j < |members| ==> members[j].0 != key
    ensures r.None? ==> forall j :: 0 <= j < |members| ==> members[j].0 != key
  {
    if |members| == 0 then None
    else if members[|members| - 1].0 == key then Some(|members| - 1)
    else KeyIndex(members[..|members| - 1], key)
  }

  /**
   * `v[key]` for a value that is not `null`: the member of an object, and
   * `undefined` (`None`) for a key an object lacks and for every other value.
   */
  function Get(v: Json, key: string): (r: Option<Json>)
    ensures r.Some? ==> v.JObject?
  {
    match v
    case JObject(members) =>
      (match KeyIndex(members, key)
       case Some(i) => Some(members[i].1)
       case None => None)
    case _ => None
  }

  /** JavaScript truthiness of a value that may be `undefined`. */
  predicate Truthy(v: Option<Json>) {
    match v
    case None => false
    case Some(JNull) => false
    case Some(JBool(b)) => b
    case Some(JNumber(n)) => n != 0
    case Some(JString(s)) => s != ""
    case Some(JArray(_)) => true
    case Some(JObject(_)) => true
  }

  /** `typeof v === 'object'`, which holds for `null` and arrays too. */
  predicate TypeofObject(v: Option<Json>) {
    v.Some? && (v.value.JNull? || v.value.JArray? || v.value.JObject?)
  }

  /** `String(v)`. */
  function ToStr(v: Json): string {
    match v
    case JNull => "null"
    case JBool(b) => if b then "true" else "false"
    case JNumber(n) => IntToString(n)
    case JString(s) => s
    case JArray(items) =>
      // `Array.prototype.join` writes a `null` element as the empty string
      Join(seq(|items|, i requires 0 <= i < |items| => if items[i].JNull? then "" else ToStr(items[i])), ",")
    case JObject(_) => "[object Object]"
  }

  /** `Array.prototype.join(sep)`, which writes a `null` element as the empty string. */
  function JoinArray(items: seq<Json>, sep: string): string {
    Join(seq(|items|, i requires 0 <= i < |items| => if items[i].JNull? then "" else ToStr(items[i])), sep)
  }

  /** `String(v)` for a value that may be `undefined`. */
  function ToStrOpt(v: Option<Json>): string {
    match v
    case None => "undefined"
    case Some(x) => ToStr(x)
  }

  /** `String(v || '')`. */
  function StrOrEmpty(v: Option<Json>): (r: string)
    ensures !Truthy(v) ==> r == ""
    ensures v.Some? && v.value.JString? ==> r == v.value.s
  {
    if Truthy(v) then ToStr(v.value) else ""
  }
}
