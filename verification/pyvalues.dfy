/** The Python values the package handles dynamically: decoded JSON
    payloads, dictionary look-ups, truthiness and the built-in `float()`
    conversion. Number parsing of text is not modelled; it is a parameter. */
module PyValues {
  import opened Wrappers

  /** A decoded JSON value (what `response.json()` returns). */
  datatype Json =
    | JNull
    | JBool(b: bool)
    | JNum(n: real)
    | JStr(s: string)
    | JArr(items: seq<Json>)
    | JObj(fields: map<string, Json>)

  /** The exceptions the modelled code raises or lets escape. */
  datatype PyError =
    | ValueError(message: string)
    | TypeError(message: string)
    | AttributeError(message: string)

  /** Python's `float(s)` on a string: `Some(x)` when the text parses,
      `None` where Python raises ValueError. */
  type FloatParser = string -> Option<real>

  /** Python's `int(s)` on a string. */
  type IntParser = string -> Option<int>

  /** `float(v)` for a JSON value: numbers and booleans convert, strings go
      through the parser, and None, lists and dicts raise TypeError. */
  function ToFloat(v: Json, parse: FloatParser): (r: Option<real>)
    ensures v.JNum? ==> r == Some(v.n)
    ensures v.JNull? || v.JArr? || v.JObj? ==> r.None?
  {
    match v
    case JNum(x) => Some(x)
    case JBool(b) => Some(if b then 1.0 else 0.0)
    case JStr(s) => parse(s)
    case _ => None
  }

  /** `_safe_float(val)` of the XE and CoinAPI clients: absence (None) and
      failed conversion both give None. */
  function SafeFloat(v: Option<Json>, parse: FloatParser): (r: Option<real>)
    ensures v.None? ==> r.None?
    ensures v.Some? ==> r == ToFloat(v.value, parse)
  {
    match v
    case None => None
    case Some(x) => ToFloat(x, parse)
  }

  /** `d.get(k)` on a dict, and `os.getenv(k)` on the environment. */
  function Get<V>(m: map<string, V>, k: string): (r: Option<V>)
    ensures r.Some? <==> k in m
    ensures r.Some? ==> r.value == m[k]
  {
    if k in m then Some(m[k]) else None
  }

  /** `s or d` for strings: `s` unless it is empty. */
  function OrStr(s: string, d: string): (r: string)
    ensures r == s || r == d
    ensures s != "" ==> r == s
    ensures r == "" ==> s == "" && d == ""
  {
    if s != "" then s else d
  }

  /** Python truthiness of a JSON value. */
  predicate Truthy(v: Json) {
    match v
    case JNull => false
    case JBool(b) => b
    case JNum(x) => x != 0.0
    case JStr(s) => s != ""
    case JArr(xs) => xs != []
    case JObj(m) => m != map[]
  }

  /** A possibly-absent real as stored in a result dict: the number, or null. */
  function OptNum(x: Option<real>): (r: Json)
    ensures x.Some? <==> r.JNum?
    ensures x.Some? ==> r.n == x.value
  {
    match x
    case Some(v) => JNum(v)
    case None => JNull
  }

  /** One `requests.get` call: URL, query parameters, headers and basic-auth
      credentials. */
  datatype Request = Request(url: string, params: map<string, Json>, headers: map<string, string>,
                             auth: Option<(string, string)>)

  /** The network: the decoded JSON body of a successful response, or None
      where the request, the HTTP status check or the JSON decoding raises
      (RequestException or ValueError). */
  type HttpGet = Request -> Option<Json>
}
