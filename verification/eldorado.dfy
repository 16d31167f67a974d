/** The Eldorado pricing client: URL joining, the nested-dict price
    extraction, and the logic of `fetch_quote` and `fetch_all_quotes`
    around one GET of the price table. */
module Eldorado {
  import opened Wrappers
  import opened PyValues
  import opened Text
  import Config

  /** The module's own fallback when the package setting is empty. */
  const FallbackBaseUrl: string := "https://api.eldorado.com"
  /** Default `path` of the fetch functions. */
  const DefaultPath: string := "/prices"

  /** `ELDORADO_API_BASE_URL = _PKG_ELDORADO_BASE or "https://api.eldorado.com"`. */
  function ModuleBaseUrl(pkgBase: string): string {
    OrStr(pkgBase, FallbackBaseUrl)
  }

  /** `is_configured()`: the base URL is non-empty. */
  predicate IsConfigured(baseUrl: string) {
    baseUrl != ""
  }

  /** With the package settings the client is always configured, and it
      uses the package's base URL. */
  lemma AlwaysConfigured(env: Config.Env, parseInt: IntParser, parseFloat: FloatParser)
    ensures var pkg := Config.Load(env, parseInt, parseFloat).eldoradoBaseUrl;
      IsConfigured(ModuleBaseUrl(pkg)) && ModuleBaseUrl(pkg) == pkg
  {
  }

  /** `_join_url(path)`: the base without trailing slashes, then the path
      with exactly one leading slash added when it has none. */
  function JoinUrl(baseUrl: string, path: string): (r: string)
    ensures var b := RStripChar(baseUrl, '/');
      && |b| <= |r| && r[..|b|] == b
      && (path == "" <==> r == b)
      && (path != "" ==> |b| + |path| <= |r| && r[|b|] == '/' && r[|r| - |path|..] == path)
      && (StartsWith(path, "/") ==> r[|b|..] == path)
      && (path != "" && !StartsWith(path, "/") ==> r[|b|..] == "/" + path)
  {
    var base := RStripChar(baseUrl, '/');
    if path == "" then base
    else if StartsWith(path, "/") then base + path
    else base + "/" + path
  }

  /** A missing leading slash on the path makes no difference. */
  lemma JoinUrlLeadingSlash(baseUrl: string, path: string)
    requires path != "" && path[0] != '/'
    ensures JoinUrl(baseUrl, "/" + path) == JoinUrl(baseUrl, path)
  {
    assert StartsWith("/" + path, "/");
  }

  /** Trailing slashes on the base make no difference. */
  lemma JoinUrlTrailingSlash(baseUrl: string, path: string)
    ensures JoinUrl(baseUrl + "/", path) == JoinUrl(baseUrl, path)
  {
    assert (baseUrl + "/")[..|baseUrl|] == baseUrl;
  }

  /** The path can be read back from the joined URL. */
  lemma JoinUrlRecoversPath(baseUrl: string, path: string)
    requires path != "" && path[0] != '/'
    ensures var b := RStripChar(baseUrl, '/');
      JoinUrl(baseUrl, path)[|b| + 1..] == path
  {
  }

  /** `fetch_prices_raw(path, params)`: None when not configured; otherwise
      the response body when it is a dict, and None for any other body or a
      failed request. `params or {}` is the map itself (None is `{}`). */
  function FetchPricesRaw(baseUrl: string, path: string, params: map<string, Json>, get: HttpGet)
    : (r: Option<map<string, Json>>)
    ensures !IsConfigured(baseUrl) ==> r.None?
    ensures r.Some? ==> get(Request(JoinUrl(baseUrl, path), params, map[], None)) == Some(JObj(r.value))
    ensures (IsConfigured(baseUrl) && get(Request(JoinUrl(baseUrl, path), params, map[], None)).Some?
             && get(Request(JoinUrl(baseUrl, path), params, map[], None)).value.JObj?) ==> r.Some?
  {
    if !IsConfigured(baseUrl) then None
    else
      match get(Request(JoinUrl(baseUrl, path), params, map[], None))
      case Some(JObj(m)) => Some(m)
      case _ => None
  }

  /** One level of `layer.get(key)` that must be a dict. */
  function Layer(m: map<string, Json>, key: string): (r: Option<map<string, Json>>)
    ensures r.Some? <==> key in m && m[key].JObj?
    ensures r.Some? ==> r.value == m[key].fields
  {
    if key in m && m[key].JObj? then Some(m[key].fields) else None
  }

  /** `_extract_price(payload, base_code, asset_code, side)`: the "price" of
      `payload[side][asset_code][base_code]` when every level is a dict and
      the price converts; otherwise None. */
  function ExtractPrice(payload: map<string, Json>, baseCode: string, assetCode: string, side: string,
                        parse: FloatParser): (r: Option<real>)
    ensures Layer(payload, side).None? ==> r.None?
    ensures Layer(payload, side).Some? && Layer(Layer(payload, side).value, assetCode).None? ==> r.None?
    ensures r.Some? ==> var sideLayer := Layer(payload, side).value;
      var assetLayer := Layer(sideLayer, assetCode).value;
      var baseLayer := Layer(assetLayer, baseCode);
      baseLayer.Some? && "price" in baseLayer.value && ToFloat(baseLayer.value["price"], parse) == r
    ensures Layer(payload, side).Some? && Layer(Layer(payload, side).value, assetCode).Some? ==>
      var baseLayer := Layer(Layer(Layer(payload, side).value, assetCode).value, baseCode);
      && (baseLayer.None? ==> r.None?)
      && (baseLayer.Some? && ("price" !in baseLayer.value || baseLayer.value["price"] == JNull) ==> r.None?)
      && (baseLayer.Some? && "price" in baseLayer.value && baseLayer.value["price"] != JNull ==>
            r == ToFloat(baseLayer.value["price"], parse))
  {
    var sideLayer := Layer(payload, side);
    if sideLayer.None? then None
    else
      var assetLayer := Layer(sideLayer.value, assetCode);
      if assetLayer.None? then None
      else
        var baseLayer := Layer(assetLayer.value, baseCode);
        if baseLayer.None? then None
        else
          var raw := Get(baseLayer.value, "price");
          if raw.None? || raw.value == JNull then None
          else ToFloat(raw.value, parse)
  }

  /** The payload that holds exactly one price entry. */
  function Nest(baseCode: string, assetCode: string, side: string, price: Json): map<string, Json> {
    map[side := JObj(map[assetCode := JObj(map[baseCode := JObj(map["price" := price])])])]
  }

  /** The price stored under a side, asset and base is the one extracted,
      after conversion; no other key path finds it. */
  lemma ExtractFromNest(baseCode: string, assetCode: string, side: string, price: Json, parse: FloatParser)
    ensures ExtractPrice(Nest(baseCode, assetCode, side, price), baseCode, assetCode, side, parse)
         == ToFloat(price, parse)
    ensures forall b, a, s :: (b, a, s) != (baseCode, assetCode, side) ==>
      ExtractPrice(Nest(baseCode, assetCode, side, price), b, a, s, parse).None?
  {
  }

  /** Entries under other sides do not affect the extraction. */
  lemma ExtractIgnoresOtherSides(payload: map<string, Json>, other: string, v: Json,
                                 baseCode: string, assetCode: string, side: string, parse: FloatParser)
    requires other != side
    ensures ExtractPrice(payload[other := v], baseCode, assetCode, side, parse)
         == ExtractPrice(payload, baseCode, assetCode, side, parse)
  {
    assert Layer(payload[other := v], side) == Layer(payload, side);
  }

  /** A normalised quote `{"base", "asset", "side", "price"}`. */
  datatype Quote = Quote(base: string, asset: string, side: string, price: real)

  /** `fetch_quote(base_code, asset_code, side)`: the side is upper-cased and
      must be BUY or SELL, checked before the fetch; an empty or failed
      fetch, or a price that cannot be extracted, gives None. */
  function FetchQuote(baseUrl: string, baseCode: string, assetCode: string, side: string,
                      path: string, params: map<string, Json>, get: HttpGet, parse: FloatParser)
    : (r: Option<Quote>)
    ensures Upper(side) != "BUY" && Upper(side) != "SELL" ==> r.None?
    ensures !IsConfigured(baseUrl) ==> r.None?
    ensures r.Some? ==> r.value.base == baseCode && r.value.asset == assetCode && r.value.side == Upper(side)
    ensures r.Some? ==> var data := FetchPricesRaw(baseUrl, path, params, get);
      data.Some? && data.value != map[] && ExtractPrice(data.value, baseCode, assetCode, Upper(side), parse) == Some(r.value.price)
    ensures var data := FetchPricesRaw(baseUrl, path, params, get);
      (Upper(side) == "BUY" || Upper(side) == "SELL") && data.Some? && data.value != map[] ==>
        var price := ExtractPrice(data.value, baseCode, assetCode, Upper(side), parse);
        && (price.Some? ==> r == Some(Quote(baseCode, assetCode, Upper(side), price.value)))
        && (price.None? ==> r.None?)
    ensures var data := FetchPricesRaw(baseUrl, path, params, get);
      data.None? || data.value == map[] ==> r.None?
  {
    var up := Upper(side);
    if up != "BUY" && up != "SELL" then None
    else
      var data := FetchPricesRaw(baseUrl, path, params, get);
      if data.None? || data.value == map[] then None
      else
        var price := ExtractPrice(data.value, baseCode, assetCode, up, parse);
        if price.None? then None
        else Some(Quote(baseCode, assetCode, up, price.value))
  }

  /** The side's letter case does not matter. */
  lemma FetchQuoteIgnoresCase(baseUrl: string, baseCode: string, assetCode: string, side: string,
                              path: string, params: map<string, Json>, get: HttpGet, parse: FloatParser)
    ensures FetchQuote(baseUrl, baseCode, assetCode, side, path, params, get, parse)
         == FetchQuote(baseUrl, baseCode, assetCode, Upper(side), path, params, get, parse)
  {
    UpperIdempotent(side);
  }

  /** A payload holding the requested entry yields its quote. */
  lemma FetchQuoteFinds(baseUrl: string, baseCode: string, assetCode: string, side: string, p: real,
                        path: string, params: map<string, Json>, get: HttpGet, parse: FloatParser)
    requires IsConfigured(baseUrl)
    requires side == "BUY" || side == "SELL"
    requires get(Request(JoinUrl(baseUrl, path), params, map[], None)) == Some(JObj(Nest(baseCode, assetCode, side, JNum(p))))
    ensures FetchQuote(baseUrl, baseCode, assetCode, side, path, params, get, parse)
         == Some(Quote(baseCode, assetCode, side, p))
  {
    assert Upper(side) == side;
    ExtractFromNest(baseCode, assetCode, side, JNum(p), parse);
    var data := Nest(baseCode, assetCode, side, JNum(p));
    assert side in data;
  }

  /** `[s.upper() for s in sides if s]`. */
  function UpperSides(sides: seq<string>): (r: seq<string>)
    ensures |r| <= |sides|
    ensures forall i :: 0 <= i < |r| ==> r[i] != "" && Upper(r[i]) == r[i]
  {
    if sides == [] then []
    else
      UpperIdempotent(sides[0]);
      var rest := UpperSides(sides[1..]);
      if sides[0] == "" then rest else [Upper(sides[0])] + rest
  }

  lemma {:induction false} UpperSidesMembers(sides: seq<string>)
    ensures forall s :: s in UpperSides(sides) <==> exists i :: 0 <= i < |sides| && sides[i] != "" && Upper(sides[i]) == s
  {
    if sides != [] {
      UpperSidesMembers(sides[1..]);
      forall s | s in UpperSides(sides) ensures exists i :: 0 <= i < |sides| && sides[i] != "" && Upper(sides[i]) == s {
        if sides[0] != "" && s == Upper(sides[0]) {
        } else {
          assert s in UpperSides(sides[1..]);
          var i :| 0 <= i < |sides[1..]| && sides[1..][i] != "" && Upper(sides[1..][i]) == s;
          assert sides[i + 1] == sides[1..][i];
        }
      }
      forall s | exists i :: 0 <= i < |sides| && sides[i] != "" && Upper(sides[i]) == s ensures s in UpperSides(sides) {
        var i :| 0 <= i < |sides| && sides[i] != "" && Upper(sides[i]) == s;
        if i > 0 {
          assert sides[1..][i - 1] == sides[i];
        }
      }
    }
  }

  /** The quotes of one base code, one per side with an extractable price,
      in side order. */
  function QuotesForBase(data: map<string, Json>, baseCode: string, assetCode: string, sides: seq<string>,
                         parse: FloatParser): seq<Quote>
  {
    if sides == [] then []
    else
      var price := ExtractPrice(data, baseCode, assetCode, sides[0], parse);
      var first := if price.Some? then [Quote(baseCode, assetCode, sides[0], price.value)] else [];
      first + QuotesForBase(data, baseCode, assetCode, sides[1..], parse)
  }

  /** The quotes of every base code in turn (base-major, then side). */
  function QuotesFor(data: map<string, Json>, baseCodes: seq<string>, assetCode: string, sides: seq<string>,
                     parse: FloatParser): seq<Quote>
  {
    if baseCodes == [] then []
    else QuotesForBase(data, baseCodes[0], assetCode, sides, parse) + QuotesFor(data, baseCodes[1..], assetCode, sides, parse)
  }

  /** Every quote comes from a requested base and side and carries the
      extracted price. */
  lemma {:induction false} QuotesForBaseSound(data: map<string, Json>, baseCode: string, assetCode: string,
                                              sides: seq<string>, parse: FloatParser)
    ensures forall q :: q in QuotesForBase(data, baseCode, assetCode, sides, parse) ==>
      q.base == baseCode && q.asset == assetCode && q.side in sides
      && ExtractPrice(data, baseCode, assetCode, q.side, parse) == Some(q.price)
  {
    if sides != [] {
      QuotesForBaseSound(data, baseCode, assetCode, sides[1..], parse);
    }
  }

  /** Every extractable (side, price) of a base code has its quote. */
  lemma {:induction false} QuotesForBaseComplete(data: map<string, Json>, baseCode: string, assetCode: string,
                                                 sides: seq<string>, parse: FloatParser)
    ensures forall s :: s in sides && ExtractPrice(data, baseCode, assetCode, s, parse).Some? ==>
      Quote(baseCode, assetCode, s, ExtractPrice(data, baseCode, assetCode, s, parse).value)
        in QuotesForBase(data, baseCode, assetCode, sides, parse)
  {
    if sides != [] {
      QuotesForBaseComplete(data, baseCode, assetCode, sides[1..], parse);
      assert forall s :: s in sides ==> s == sides[0] || s in sides[1..];
    }
  }

  lemma {:induction false} QuotesForSound(data: map<string, Json>, baseCodes: seq<string>, assetCode: string,
                                          sides: seq<string>, parse: FloatParser)
    ensures forall q :: q in QuotesFor(data, baseCodes, assetCode, sides, parse) ==>
      q.base in baseCodes && q.asset == assetCode && q.side in sides
      && ExtractPrice(data, q.base, assetCode, q.side, parse) == Some(q.price)
  {
    if baseCodes != [] {
      QuotesForBaseSound(data, baseCodes[0], assetCode, sides, parse);
      QuotesForSound(data, baseCodes[1..], assetCode, sides, parse);
    }
  }

  lemma {:induction false} QuotesForComplete(data: map<string, Json>, baseCodes: seq<string>, assetCode: string,
                                             sides: seq<string>, parse: FloatParser)
    ensures forall b, s :: b in baseCodes && s in sides && ExtractPrice(data, b, assetCode, s, parse).Some? ==>
      Quote(b, assetCode, s, ExtractPrice(data, b, assetCode, s, parse).value)
        in QuotesFor(data, baseCodes, assetCode, sides, parse)
  {
    if baseCodes != [] {
      QuotesForBaseComplete(data, baseCodes[0], assetCode, sides, parse);
      QuotesForComplete(data, baseCodes[1..], assetCode, sides, parse);
      assert forall b :: b in baseCodes ==> b == baseCodes[0] || b in baseCodes[1..];
    }
  }

  /** Output order is base-major: the quotes of a longer base list extend
      those of its prefix. */
  lemma {:induction false} QuotesForAppend(data: map<string, Json>, a: seq<string>, b: seq<string>,
                                           assetCode: string, sides: seq<string>, parse: FloatParser)
    ensures QuotesFor(data, a + b, assetCode, sides, parse)
         == QuotesFor(data, a, assetCode, sides, parse) + QuotesFor(data, b, assetCode, sides, parse)
  {
    if a == [] {
      assert a + b == b;
    } else {
      assert (a + b)[0] == a[0];
      assert (a + b)[1..] == a[1..] + b;
      QuotesForAppend(data, a[1..], b, assetCode, sides, parse);
    }
  }

  /** The quote (if any) of one base code and side. */
  function QuoteAt(data: map<string, Json>, baseCode: string, assetCode: string, side: string,
                   parse: FloatParser): seq<Quote>
  {
    var price := ExtractPrice(data, baseCode, assetCode, side, parse);
    if price.Some? then [Quote(baseCode, assetCode, side, price.value)] else []
  }

  lemma QuotesForBaseStep(data: map<string, Json>, baseCode: string, assetCode: string, sides: seq<string>,
                          j: int, parse: FloatParser)
    requires 0 <= j < |sides|
    ensures QuotesForBase(data, baseCode, assetCode, sides[j..], parse)
         == QuoteAt(data, baseCode, assetCode, sides[j], parse) + QuotesForBase(data, baseCode, assetCode, sides[j + 1..], parse)
  {
    assert sides[j..][1..] == sides[j + 1..];
  }

  lemma QuotesForStep(data: map<string, Json>, baseCodes: seq<string>, assetCode: string, sides: seq<string>,
                      i: int, parse: FloatParser)
    requires 0 <= i < |baseCodes|
    ensures QuotesFor(data, baseCodes[i..], assetCode, sides, parse)
         == QuotesForBase(data, baseCodes[i], assetCode, sides, parse) + QuotesFor(data, baseCodes[i + 1..], assetCode, sides, parse)
  {
    assert baseCodes[i..][1..] == baseCodes[i + 1..];
  }

  /** The inner loop of `fetch_all_quotes`: the quotes of one base code. */
  method CollectForBase(data: map<string, Json>, baseCode: string, assetCode: string, sides: seq<string>,
                        parse: FloatParser) returns (found: seq<Quote>)
    ensures found == QuotesForBase(data, baseCode, assetCode, sides, parse)
  {
    found := [];
    var j := 0;
    while j < |sides|
      invariant 0 <= j <= |sides|
      invariant found + QuotesForBase(data, baseCode, assetCode, sides[j..], parse)
             == QuotesForBase(data, baseCode, assetCode, sides, parse)
    {
      QuotesForBaseStep(data, baseCode, assetCode, sides, j, parse);
      var q := QuoteAt(data, baseCode, assetCode, sides[j], parse);
      var rest := QuotesForBase(data, baseCode, assetCode, sides[j + 1..], parse);
      assert found + (q + rest) == (found + q) + rest;
      found := found + q;
      j := j + 1;
    }
  }

  /** The nested loops of `fetch_all_quotes` over an already fetched table. */
  method CollectQuotes(data: map<string, Json>, baseCodes: seq<string>, assetCode: string, sides: seq<string>,
                       parse: FloatParser) returns (results: seq<Quote>)
    ensures results == QuotesFor(data, baseCodes, assetCode, sides, parse)
  {
    results := [];
    var i := 0;
    while i < |baseCodes|
      invariant 0 <= i <= |baseCodes|
      invariant results + QuotesFor(data, baseCodes[i..], assetCode, sides, parse)
             == QuotesFor(data, baseCodes, assetCode, sides, parse)
    {
      QuotesForStep(data, baseCodes, assetCode, sides, i, parse);
      var found := CollectForBase(data, baseCodes[i], assetCode, sides, parse);
      results := results + found;
      i := i + 1;
    }
  }

  /** `fetch_all_quotes(base_codes, asset_code, sides)`: one fetch; an empty
      or failed fetch gives []; otherwise the quotes for every base code and
      every non-empty upper-cased side, base-major. */
  function FetchAllQuotes(baseUrl: string, baseCodes: seq<string>, assetCode: string, sides: seq<string>,
                          path: string, params: map<string, Json>, get: HttpGet, parse: FloatParser)
    : (r: seq<Quote>)
    ensures !IsConfigured(baseUrl) ==> r == []
    ensures baseCodes == [] ==> r == []
    ensures var data := FetchPricesRaw(baseUrl, path, params, get);
      data.None? || data.value == map[] ==> r == []
  {
    var data := FetchPricesRaw(baseUrl, path, params, get);
    if data.None? || data.value == map[] then []
    else QuotesFor(data.value, baseCodes, assetCode, UpperSides(sides), parse)
  }

  /** What `fetch_all_quotes` returns, quote by quote: each one is for a
      requested base code and a non-empty requested side (upper-cased), and
      every such pair with an extractable price is present. */
  lemma FetchAllQuotesContents(baseUrl: string, baseCodes: seq<string>, assetCode: string, sides: seq<string>,
                               path: string, params: map<string, Json>, get: HttpGet, parse: FloatParser)
    requires var data := FetchPricesRaw(baseUrl, path, params, get); data.Some? && data.value != map[]
    ensures var data := FetchPricesRaw(baseUrl, path, params, get).value;
      var r := FetchAllQuotes(baseUrl, baseCodes, assetCode, sides, path, params, get, parse);
      && (forall q :: q in r ==>
            q.base in baseCodes && q.asset == assetCode && q.side in UpperSides(sides)
            && ExtractPrice(data, q.base, assetCode, q.side, parse) == Some(q.price))
      && (forall b, s :: b in baseCodes && s in UpperSides(sides) && ExtractPrice(data, b, assetCode, s, parse).Some? ==>
            Quote(b, assetCode, s, ExtractPrice(data, b, assetCode, s, parse).value) in r)
  {
    var data := FetchPricesRaw(baseUrl, path, params, get).value;
    QuotesForSound(data, baseCodes, assetCode, UpperSides(sides), parse);
    QuotesForComplete(data, baseCodes, assetCode, UpperSides(sides), parse);
  }

  /** `fetch_all_quotes` accepts any side where `fetch_quote` accepts only
      BUY and SELL. Neither call filters prices: both keep a non-positive
      one (for `fetch_quote` see `FetchQuoteFinds`, which holds for any
      price). */
  lemma FetchAllQuotesAnySideAnyPrice(baseUrl: string, path: string, params: map<string, Json>, get: HttpGet,
                                      parse: FloatParser)
    requires IsConfigured(baseUrl)
    requires get(Request(JoinUrl(baseUrl, path), params, map[], None))
          == Some(JObj(Nest("FIAT-ARS", "TRON-USDT", "MID", JNum(-1.0))))
    ensures FetchAllQuotes(baseUrl, ["FIAT-ARS"], "TRON-USDT", ["mid"], path, params, get, parse)
         == [Quote("FIAT-ARS", "TRON-USDT", "MID", -1.0)]
    ensures FetchQuote(baseUrl, "FIAT-ARS", "TRON-USDT", "mid", path, params, get, parse).None?
  {
    assert Upper("mid") == "MID";
    assert UpperSides(["mid"]) == ["MID"];
    var data := Nest("FIAT-ARS", "TRON-USDT", "MID", JNum(-1.0));
    assert QuotesForBase(data, "FIAT-ARS", "TRON-USDT", ["MID"], parse)
        == [Quote("FIAT-ARS", "TRON-USDT", "MID", -1.0)] + QuotesForBase(data, "FIAT-ARS", "TRON-USDT", [], parse);
    assert QuotesFor(data, ["FIAT-ARS"], "TRON-USDT", ["MID"], parse)
        == QuotesForBase(data, "FIAT-ARS", "TRON-USDT", ["MID"], parse) + QuotesFor(data, [], "TRON-USDT", ["MID"], parse);
    ExtractFromNest("FIAT-ARS", "TRON-USDT", "MID", JNum(-1.0), parse);
    assert "MID" in data;
  }
}
