/** The XE client: configuration check, the convert_from request, and the
    normalisation of its response into mid/bid/ask. */
module Xe {
  import opened Wrappers
  import opened PyValues

  const FallbackBaseUrl: string := "https://xecdapi.xe.com"
  const DefaultAmount: real := 1.0
  const DefaultDecimalPlaces: int := 6

  /** The normalised rate `{"mid", "bid", "ask"}`. */
  datatype FxRate = FxRate(mid: real, bid: real, ask: real)

  /** `XE_API_BASE_URL = _PKG_XE_BASE_URL or "https://xecdapi.xe.com"`. */
  function ModuleBaseUrl(pkgBase: string): string {
    OrStr(pkgBase, FallbackBaseUrl)
  }

  /** `bool(XE_API_ACCOUNT_ID and XE_API_KEY)`. */
  predicate IsConfigured(accountId: Option<string>, key: Option<string>) {
    accountId.Some? && accountId.value != "" && key.Some? && key.value != ""
  }

  /** The request of `fetch_fx_rate(base, ref_fiat, amount, decimal_places)`:
      convert from the reference fiat to `base`, with basic auth. */
  function FxRequest(accountId: string, key: string, baseUrl: string, base: string, refFiat: string,
                     amount: real, decimalPlaces: int): (q: Request)
    ensures q.url == baseUrl + "/v1/convert_from.json"
    ensures q.params.Keys == {"from", "to", "amount", "decimal_places"}
    ensures q.params["from"] == JStr(refFiat) && q.params["to"] == JStr(base)
    ensures q.auth == Some((accountId, key))
  {
    Request(baseUrl + "/v1/convert_from.json",
            map["from" := JStr(refFiat), "to" := JStr(base), "amount" := JNum(amount),
                "decimal_places" := JNum(decimalPlaces as real)],
            map[], Some((accountId, key)))
  }

  /** `_safe_float(row.get(k))`. */
  function Field(row: map<string, Json>, k: string, parse: FloatParser): Option<real> {
    SafeFloat(Get(row, k), parse)
  }

  /** `payload.get("to") or []`. */
  function Rows(payload: map<string, Json>): (rows: Json)
    ensures Truthy(rows) ==> "to" in payload && rows == payload["to"]
  {
    var v := Get(payload, "to");
    if v.Some? && Truthy(v.value) then v.value else JArr([])
  }

  /** mid/bid/ask of the first row, bid and ask falling back to mid. */
  function RateOfRow(row: map<string, Json>, parse: FloatParser): (r: Option<FxRate>)
    ensures r.Some? <==> Field(row, "mid", parse).Some?
    ensures r.Some? ==>
      && r.value.mid == Field(row, "mid", parse).value
      && r.value.bid == Field(row, "bid", parse).GetOr(r.value.mid)
      && r.value.ask == Field(row, "ask", parse).GetOr(r.value.mid)
  {
    var mid := Field(row, "mid", parse);
    if mid.None? then None
    else Some(FxRate(mid.value, Field(row, "bid", parse).GetOr(mid.value), Field(row, "ask", parse).GetOr(mid.value)))
  }

  /** The response handling of `fetch_fx_rate` as written. `payload.get`
      and `row.get` raise AttributeError, which the handlers do not catch,
      when the payload or the first row is not a dict. A falsy or
      non-list "to" gives None; only the first row is read. */
  function FxFromPayloadAsWritten(payload: Json, parse: FloatParser): (r: Result<Option<FxRate>, PyError>)
    ensures !payload.JObj? ==> r.Failure?
    ensures payload.JObj? && !(Rows(payload.fields).JArr? && Rows(payload.fields).items != []) ==> r == Success(None)
    ensures (payload.JObj? && Rows(payload.fields).JArr? && Rows(payload.fields).items != []) ==>
      var row := Rows(payload.fields).items[0];
      (r.Failure? <==> !row.JObj?) && (row.JObj? ==> r == Success(RateOfRow(row.fields, parse)))
  {
    if !payload.JObj? then Failure(AttributeError("object has no attribute 'get'"))
    else
      var rows := Rows(payload.fields);
      if !Truthy(rows) || !rows.JArr? then Success(None)
      else
        var row := rows.items[0];
        if !row.JObj? then Failure(AttributeError("object has no attribute 'get'"))
        else Success(RateOfRow(row.fields, parse))
  }

  /** The documented behaviour: every error gives None. */
  function FxFromPayload(payload: Json, parse: FloatParser): (r: Option<FxRate>)
    ensures FxFromPayloadAsWritten(payload, parse).Success? ==> r == FxFromPayloadAsWritten(payload, parse).value
    ensures FxFromPayloadAsWritten(payload, parse).Failure? ==> r.None?
  {
    var w := FxFromPayloadAsWritten(payload, parse);
    if w.Failure? then None else w.value
  }

  /** A first row that is not an object makes the code as written raise
      AttributeError, where the documented result is None. */
  lemma NonObjectRowRaises(parse: FloatParser)
    ensures FxFromPayloadAsWritten(JObj(map["to" := JArr([JNull])]), parse).Failure?
    ensures FxFromPayloadAsWritten(JArr([]), parse).Failure?
    ensures FxFromPayload(JObj(map["to" := JArr([JNull])]), parse).None?
  {
  }

  /** The payload XE sends for one rate: `{"to": [{"mid", "bid"?, "ask"?}]}`. */
  function Payload(mid: real, bid: Option<real>, ask: Option<real>): Json {
    var row := map["mid" := JNum(mid)];
    var row := if bid.Some? then row["bid" := JNum(bid.value)] else row;
    var row := if ask.Some? then row["ask" := JNum(ask.value)] else row;
    JObj(map["to" := JArr([JObj(row)])])
  }

  /** Reading a payload back: the mid, and the bid and ask or the mid in
      their place. Values are not filtered for positivity. */
  lemma FxFromPayloadOfPayload(mid: real, bid: Option<real>, ask: Option<real>, parse: FloatParser)
    ensures FxFromPayload(Payload(mid, bid, ask), parse) == Some(FxRate(mid, bid.GetOr(mid), ask.GetOr(mid)))
  {
    var p := Payload(mid, bid, ask);
    assert Rows(p.fields) == p.fields["to"];
  }

  /** Only the first row is read. */
  lemma OnlyFirstRow(row: Json, more: seq<Json>, parse: FloatParser)
    ensures FxFromPayloadAsWritten(JObj(map["to" := JArr([row] + more)]), parse)
         == FxFromPayloadAsWritten(JObj(map["to" := JArr([row])]), parse)
  {
    assert ([row] + more)[0] == row;
  }

  /** A missing, empty or non-list "to" gives None. */
  lemma NoRowsNoRate(rest: map<string, Json>, other: Json, parse: FloatParser)
    requires "to" !in rest
    requires !other.JArr?
    ensures FxFromPayload(JObj(rest), parse).None?
    ensures FxFromPayload(JObj(rest["to" := JArr([])]), parse).None?
    ensures FxFromPayload(JObj(rest["to" := other]), parse).None?
  {
  }

  /** A dict payload whose `payload.get("to") or []` is a non-empty list. */
  predicate HasRows(payload: Json) {
    payload.JObj? && Rows(payload.fields).JArr? && Rows(payload.fields).items != []
  }

  /** `rows[0]` of a payload with rows. */
  function FirstRow(payload: Json): Json
    requires HasRows(payload)
  {
    Rows(payload.fields).items[0]
  }

  /** `fetch_fx_rate(base, ref_fiat, amount, decimal_places)` as written:
      None when not configured or when the request fails. The call raises
      AttributeError exactly when a response arrives that is not a dict or
      whose first row is not a dict; a dict first row gives its rate. */
  function FetchFxRateAsWritten(accountId: Option<string>, key: Option<string>, baseUrl: string,
                                base: string, refFiat: string, amount: real, decimalPlaces: int,
                                get: HttpGet, parse: FloatParser): (r: Result<Option<FxRate>, PyError>)
    ensures !IsConfigured(accountId, key) ==> r == Success(None)
    ensures r.Failure? ==> r.error.AttributeError?
    ensures IsConfigured(accountId, key) ==>
      var resp := get(FxRequest(accountId.value, key.value, baseUrl, base, refFiat, amount, decimalPlaces));
      && (r.Failure? <==> resp.Some? && (!resp.value.JObj? || (HasRows(resp.value) && !FirstRow(resp.value).JObj?)))
      && (resp.None? || (resp.value.JObj? && !HasRows(resp.value)) ==> r == Success(None))
      && (resp.Some? && HasRows(resp.value) && FirstRow(resp.value).JObj? ==>
            r == Success(RateOfRow(FirstRow(resp.value).fields, parse)))
  {
    if !IsConfigured(accountId, key) then Success(None)
    else
      var resp := get(FxRequest(accountId.value, key.value, baseUrl, base, refFiat, amount, decimalPlaces));
      if resp.None? then Success(None) else FxFromPayloadAsWritten(resp.value, parse)
  }

  /** `fetch_fx_rate` with every error giving None, as documented. */
  function FetchFxRate(accountId: Option<string>, key: Option<string>, baseUrl: string,
                       base: string, refFiat: string, amount: real, decimalPlaces: int,
                       get: HttpGet, parse: FloatParser): (r: Option<FxRate>)
    ensures !IsConfigured(accountId, key) ==> r.None?
    ensures var w := FetchFxRateAsWritten(accountId, key, baseUrl, base, refFiat, amount, decimalPlaces, get, parse);
      (w.Success? ==> r == w.value) && (w.Failure? ==> r.None?)
  {
    if !IsConfigured(accountId, key) then None
    else
      var resp := get(FxRequest(accountId.value, key.value, baseUrl, base, refFiat, amount, decimalPlaces));
      if resp.None? then None else FxFromPayload(resp.value, parse)
  }

  /** The rate as the dict `{"mid": …, "bid": …, "ask": …}`. */
  function ToDict(fx: FxRate): (d: map<string, real>)
    ensures d.Keys == {"mid", "bid", "ask"}
    ensures d["mid"] == fx.mid && d["bid"] == fx.bid && d["ask"] == fx.ask
  {
    map["mid" := fx.mid, "bid" := fx.bid, "ask" := fx.ask]
  }

  /** The rate as a JSON value (what the CLI stores under "fx"). */
  function ToJson(fx: Option<FxRate>): (j: Json)
    ensures fx.None? <==> j == JNull
    ensures fx.Some? ==> j.JObj? && j.fields.Keys == {"mid", "bid", "ask"} && Truthy(j)
  {
    if fx.None? then JNull
    else
      var d := ToDict(fx.value);
      assert "mid" in d;
      JObj(map["mid" := JNum(d["mid"]), "bid" := JNum(d["bid"]), "ask" := JNum(d["ask"])])
  }
}
