/** The CoinAPI client: configuration check, request headers, URL and
    query construction, and the post-processing of the returned rate in
    `get_exchange_rate` and `get_symbol_rate`. */
module CoinApi {
  import opened Wrappers
  import opened PyValues
  import opened Text

  const FallbackBaseUrl: string := "https://rest.coinapi.io"
  const UserAgent: string := "stablecoin-premiums/0.1 (+https://github.com/)"
  const KeyHeader: string := "X-CoinAPI-Key"

  /** `COINAPI_BASE_URL = _PKG_COINAPI_BASE or "https://rest.coinapi.io"`. */
  function ModuleBaseUrl(pkgBase: string): string {
    OrStr(pkgBase, FallbackBaseUrl)
  }

  /** `bool(COINAPI_KEY)`: the key is set and non-empty. */
  predicate IsConfigured(key: Option<string>) {
    key.Some? && key.value != ""
  }

  /** `_headers()`: JSON accept and user agent, plus the key header exactly
      when a key is configured. */
  function Headers(key: Option<string>): (h: map<string, string>)
    ensures KeyHeader in h <==> IsConfigured(key)
    ensures IsConfigured(key) ==> h[KeyHeader] == key.value
    ensures "Accept" in h && h["Accept"] == "application/json"
    ensures "User-Agent" in h && h["User-Agent"] == UserAgent
    ensures h.Keys <= {"Accept", "User-Agent", KeyHeader}
  {
    var base := map["Accept" := "application/json", "User-Agent" := UserAgent];
    if IsConfigured(key) then base[KeyHeader := key.value] else base
  }

  /** `f"{COINAPI_BASE_URL.rstrip('/')}/v1/exchangerate/{asset_base}/{asset_quote}"`. */
  function ExchangeRateUrl(baseUrl: string, assetBase: string, assetQuote: string): (r: string)
    ensures var b := RStripChar(baseUrl, '/');
      && StartsWith(r, b + "/v1/exchangerate/")
      && r[|b| + 17..] == assetBase + "/" + assetQuote
  {
    RStripChar(baseUrl, '/') + "/v1/exchangerate/" + assetBase + "/" + assetQuote
  }

  /** `f"{COINAPI_BASE_URL.rstrip('/')}/v1/exchangerate/{symbol_id}"`. */
  function SymbolRateUrl(baseUrl: string, symbolId: string): (r: string)
    ensures var b := RStripChar(baseUrl, '/');
      && StartsWith(r, b + "/v1/exchangerate/")
      && r[|b| + 17..] == symbolId
  {
    RStripChar(baseUrl, '/') + "/v1/exchangerate/" + symbolId
  }

  /** A symbol of the form "BASE/QUOTE" reaches the exchange-rate URL, and
      trailing slashes on the base URL make no difference. */
  lemma UrlProperties(baseUrl: string, assetBase: string, assetQuote: string)
    ensures SymbolRateUrl(baseUrl, assetBase + "/" + assetQuote) == ExchangeRateUrl(baseUrl, assetBase, assetQuote)
    ensures ExchangeRateUrl(baseUrl + "/", assetBase, assetQuote) == ExchangeRateUrl(baseUrl, assetBase, assetQuote)
  {
    assert (baseUrl + "/")[..|baseUrl|] == baseUrl;
  }

  /** The query: "time" only when it is truthy, then `extra_params` merged
      over it (an extra "time" wins). */
  function QueryParams(time: Option<string>, extra: map<string, Json>): (p: map<string, Json>)
    ensures p.Keys == extra.Keys + (if time.Some? && time.value != "" then {"time"} else {})
    ensures forall k :: k in extra ==> p[k] == extra[k]
    ensures "time" !in extra && time.Some? && time.value != "" ==> p["time"] == JStr(time.value)
  {
    var withTime: map<string, Json> := if time.Some? && time.value != "" then map["time" := JStr(time.value)] else map[];
    withTime + extra
  }

  /** The rate handling after `resp.json()`, as written: `j.get("rate")`
      raises AttributeError (which escapes) when the body is not a dict; a
      missing, unconvertible or non-positive rate gives None; `invert`
      gives `1 / rate`. */
  function RateFromResponseAsWritten(j: Json, invert: bool, parse: FloatParser): (r: Result<Option<real>, PyError>)
    ensures r.Failure? <==> !j.JObj?
    ensures r.Success? && r.value.Some? ==> r.value.value > 0.0
    ensures j.JObj? ==> var rate := SafeFloat(Get(j.fields, "rate"), parse);
      && (r.value.Some? <==> (rate.Some? && rate.value > 0.0))
      && (rate.Some? && rate.value > 0.0 ==> r == Success(Some(if invert then 1.0 / rate.value else rate.value)))
  {
    if !j.JObj? then Failure(AttributeError("object has no attribute 'get'"))
    else
      var rate := SafeFloat(Get(j.fields, "rate"), parse);
      if rate.None? || rate.value <= 0.0 then Success(None)
      else if invert then Success(Some(1.0 / rate.value))
      else Success(Some(rate.value))
  }

  /** The documented behaviour: None on any error, including a body that is
      not a dict. */
  function RateFromResponse(j: Json, invert: bool, parse: FloatParser): (r: Option<real>)
    ensures r.Some? ==> r.value > 0.0
    ensures j.JObj? ==> r == RateFromResponseAsWritten(j, invert, parse).value
    ensures !j.JObj? ==> r.None?
    ensures j.JObj? ==> var rate := SafeFloat(Get(j.fields, "rate"), parse);
      rate.Some? && rate.value > 0.0 ==> r == Some(if invert then 1.0 / rate.value else rate.value)
  {
    var w := RateFromResponseAsWritten(j, invert, parse);
    if w.Failure? then None else w.value
  }

  /** A body that is a JSON list makes the code as written raise instead of
      returning None. */
  lemma NonDictBodyRaises(parse: FloatParser)
    ensures RateFromResponseAsWritten(JArr([]), false, parse).Failure?
    ensures RateFromResponse(JArr([]), false, parse).None?
  {
  }

  /** Inversion gives the reciprocal of the plain rate, and both are
      present or absent together. */
  lemma InvertIsReciprocal(j: Json, parse: FloatParser)
    ensures RateFromResponse(j, true, parse).Some? <==> RateFromResponse(j, false, parse).Some?
    ensures RateFromResponse(j, false, parse).Some? ==>
      RateFromResponse(j, true, parse).value * RateFromResponse(j, false, parse).value == 1.0
  {
  }

  /** `get_exchange_rate(asset_base, asset_quote, time, invert, extra_params)`
      as written: None when not configured or when the request fails,
      otherwise the post-processed rate (or the escaping AttributeError). */
  function GetExchangeRateAsWritten(key: Option<string>, baseUrl: string, assetBase: string, assetQuote: string,
                                    time: Option<string>, invert: bool, extra: map<string, Json>,
                                    get: HttpGet, parse: FloatParser): (r: Result<Option<real>, PyError>)
    ensures !IsConfigured(key) ==> r == Success(None)
    ensures r.Success? && r.value.Some? ==> r.value.value > 0.0
    ensures IsConfigured(key) ==>
      var resp := get(Request(ExchangeRateUrl(baseUrl, assetBase, assetQuote), QueryParams(time, extra), Headers(key), None));
      (resp.None? ==> r == Success(None))
      && (resp.Some? ==> r == RateFromResponseAsWritten(resp.value, invert, parse))
  {
    if !IsConfigured(key) then Success(None)
    else
      var resp := get(Request(ExchangeRateUrl(baseUrl, assetBase, assetQuote), QueryParams(time, extra), Headers(key), None));
      if resp.None? then Success(None) else RateFromResponseAsWritten(resp.value, invert, parse)
  }

  /** `get_exchange_rate` with every error giving None. */
  function GetExchangeRate(key: Option<string>, baseUrl: string, assetBase: string, assetQuote: string,
                           time: Option<string>, invert: bool, extra: map<string, Json>,
                           get: HttpGet, parse: FloatParser): (r: Option<real>)
    ensures !IsConfigured(key) ==> r.None?
    ensures r.Some? ==> r.value > 0.0
    ensures var w := GetExchangeRateAsWritten(key, baseUrl, assetBase, assetQuote, time, invert, extra, get, parse);
      && (w.Success? ==> r == w.value)
      && (w.Failure? ==> r.None?)
  {
    if !IsConfigured(key) then None
    else
      var resp := get(Request(ExchangeRateUrl(baseUrl, assetBase, assetQuote), QueryParams(time, extra), Headers(key), None));
      if resp.None? then None else RateFromResponse(resp.value, invert, parse)
  }

  /** `get_symbol_rate(symbol_id, time, invert, extra_params)` as written:
      the same post-processing on the symbol URL, so a body that is not a
      dict raises AttributeError there too. */
  function GetSymbolRateAsWritten(key: Option<string>, baseUrl: string, symbolId: string,
                                  time: Option<string>, invert: bool, extra: map<string, Json>,
                                  get: HttpGet, parse: FloatParser): (r: Result<Option<real>, PyError>)
    ensures !IsConfigured(key) ==> r == Success(None)
    ensures r.Success? && r.value.Some? ==> r.value.value > 0.0
    ensures var resp := get(Request(SymbolRateUrl(baseUrl, symbolId), QueryParams(time, extra), Headers(key), None));
      && (r.Failure? <==> IsConfigured(key) && resp.Some? && !resp.value.JObj?)
      && (IsConfigured(key) && resp.None? ==> r == Success(None))
  {
    if !IsConfigured(key) then Success(None)
    else
      var resp := get(Request(SymbolRateUrl(baseUrl, symbolId), QueryParams(time, extra), Headers(key), None));
      if resp.None? then Success(None) else RateFromResponseAsWritten(resp.value, invert, parse)
  }

  /** A symbol endpoint answering with a JSON list makes the code as written
      raise, where the documented behaviour is None. */
  lemma SymbolListBodyRaises(key: string, baseUrl: string, symbolId: string, get: HttpGet, parse: FloatParser)
    requires key != ""
    requires get(Request(SymbolRateUrl(baseUrl, symbolId), map[], Headers(Some(key)), None)) == Some(JArr([]))
    ensures GetSymbolRateAsWritten(Some(key), baseUrl, symbolId, None, false, map[], get, parse).Failure?
    ensures GetSymbolRate(Some(key), baseUrl, symbolId, None, false, map[], get, parse).None?
  {
    assert QueryParams(None, map[]) == map[];
  }

  /** `get_symbol_rate` with every error giving None. */
  function GetSymbolRate(key: Option<string>, baseUrl: string, symbolId: string,
                         time: Option<string>, invert: bool, extra: map<string, Json>,
                         get: HttpGet, parse: FloatParser): (r: Option<real>)
    ensures !IsConfigured(key) ==> r.None?
    ensures r.Some? ==> r.value > 0.0
    ensures IsConfigured(key) ==>
      var resp := get(Request(SymbolRateUrl(baseUrl, symbolId), QueryParams(time, extra), Headers(key), None));
      r == (if resp.None? then None else RateFromResponse(resp.value, invert, parse))
    ensures var w := GetSymbolRateAsWritten(key, baseUrl, symbolId, time, invert, extra, get, parse);
      && (w.Success? ==> r == w.value)
      && (w.Failure? ==> r.None?)
  {
    if !IsConfigured(key) then None
    else
      var resp := get(Request(SymbolRateUrl(baseUrl, symbolId), QueryParams(time, extra), Headers(key), None));
      if resp.None? then None else RateFromResponse(resp.value, invert, parse)
  }

  /** The two entry points agree when the symbol names the pair. */
  lemma SymbolRateMatchesExchangeRate(key: Option<string>, baseUrl: string, assetBase: string, assetQuote: string,
                                      time: Option<string>, invert: bool, extra: map<string, Json>,
                                      get: HttpGet, parse: FloatParser)
    ensures GetSymbolRate(key, baseUrl, assetBase + "/" + assetQuote, time, invert, extra, get, parse)
         == GetExchangeRate(key, baseUrl, assetBase, assetQuote, time, invert, extra, get, parse)
  {
    UrlProperties(baseUrl, assetBase, assetQuote);
  }

  /** A body `{"rate": x}` with x > 0 gives x, or 1/x inverted; x <= 0 gives None. */
  lemma RateOfBody(x: real, parse: FloatParser)
    ensures RateFromResponse(JObj(map["rate" := JNum(x)]), false, parse) == (if x > 0.0 then Some(x) else None)
    ensures RateFromResponse(JObj(map["rate" := JNum(x)]), true, parse) == (if x > 0.0 then Some(1.0 / x) else None)
  {
  }
}
