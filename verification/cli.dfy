/** The decision logic of the command-line entry point: which fiats to
    process, how one fiat's result row is classified, and the exit code. */
module Cli {
  import opened Wrappers
  import opened PyValues
  import opened Text
  import opened Seqs
  import Compute
  import Binance
  import Xe

  /** The last-resort fiat list. */
  const FallbackFiats: seq<string> := ["MXN"]

  const InsufficientP2p: string := "insufficient_p2p_data"
  const InsufficientFx: string := "insufficient_fx_data"
  const ComputeErrorPrefix: string := "compute_error: "

  /** The items of one `--fiats` entry: nothing for an empty entry, else
      the non-empty stripped comma pieces. */
  function EntryItems(entry: string): (r: seq<string>)
    ensures forall i :: 0 <= i < |r| ==> r[i] != "" && Trimmed(r[i]) && ',' !in r[i]
  {
    if entry == "" then []
    else
      var parts := Split(entry, ',');
      StripNonEmptyKeepsOut(parts, ',');
      StripNonEmpty(parts)
  }

  /** An entry's items are exactly its non-empty stripped pieces. */
  lemma EntryItemsMembers(entry: string)
    ensures forall x :: x in EntryItems(entry) <==> x != "" && x in StripEach(Split(entry, ','))
  {
    StripNonEmptyMembers(Split(entry, ','));
    if entry == "" {
      assert Split(entry, ',') == [""];
      assert Strip("") == "";
      assert StripEach([""]) == [""];
    }
  }

  /** A whitespace-only entry names no fiat. */
  lemma BlankEntryNamesNothing(entry: string)
    requires IsBlank(entry)
    ensures EntryItems(entry) == []
  {
    if entry != "" {
      var parts := Split(entry, ',');
      SplitOfBlank(entry, ',');
      StripNonEmptyOfBlanks(parts);
    }
  }

  lemma {:induction false} SplitOfBlank(s: string, sep: char)
    requires IsBlank(s)
    ensures forall i :: 0 <= i < |Split(s, sep)| ==> IsBlank(Split(s, sep)[i])
  {
    if s != [] {
      assert IsSpace(s[0]);
      SplitOfBlank(s[1..], sep);
    }
  }

  lemma {:induction false} StripNonEmptyOfBlanks(parts: seq<string>)
    requires forall i :: 0 <= i < |parts| ==> IsBlank(parts[i])
    ensures StripNonEmpty(parts) == []
  {
    if parts != [] {
      StripEmptyIffBlank(parts[0]);
      StripNonEmptyOfBlanks(parts[1..]);
    }
  }

  /** The fiats named on the command line, entry by entry, in order. */
  function CliItems(entries: seq<string>): (r: seq<string>)
    ensures forall i :: 0 <= i < |r| ==> r[i] != "" && Trimmed(r[i]) && ',' !in r[i]
  {
    if entries == [] then [] else EntryItems(entries[0]) + CliItems(entries[1..])
  }

  /** An item comes from the command line exactly when some entry names it. */
  lemma {:induction false} CliItemsMembers(entries: seq<string>)
    ensures forall x :: x in CliItems(entries) <==> exists i :: 0 <= i < |entries| && x in EntryItems(entries[i])
  {
    if entries != [] {
      CliItemsMembers(entries[1..]);
      var head, tail := EntryItems(entries[0]), CliItems(entries[1..]);
      assert CliItems(entries) == head + tail;
      forall x | x in CliItems(entries) ensures exists i :: 0 <= i < |entries| && x in EntryItems(entries[i]) {
        if x !in head {
          assert x in tail;
          var i :| 0 <= i < |entries[1..]| && x in EntryItems(entries[1..][i]);
          assert entries[i + 1] == entries[1..][i];
        }
      }
      forall x | exists i :: 0 <= i < |entries| && x in EntryItems(entries[i]) ensures x in CliItems(entries) {
        var i :| 0 <= i < |entries| && x in EntryItems(entries[i]);
        if i > 0 {
          assert entries[1..][i - 1] == entries[i];
          assert x in tail;
        }
      }
    }
  }

  /** Blank entries contribute nothing. */
  lemma {:induction false} BlankEntriesNameNothing(entries: seq<string>)
    requires forall i :: 0 <= i < |entries| ==> IsBlank(entries[i])
    ensures CliItems(entries) == []
  {
    if entries != [] {
      BlankEntryNamesNothing(entries[0]);
      BlankEntriesNameNothing(entries[1..]);
    }
  }

  /** The candidates before de-duplication: the command-line items, else
      the configured defaults, else MXN. */
  function Candidates(cliFiats: seq<string>, defaultFiats: seq<string>): (r: seq<string>)
    ensures r != []
    ensures CliItems(cliFiats) != [] ==> r == CliItems(cliFiats)
    ensures CliItems(cliFiats) == [] && defaultFiats != [] ==> r == defaultFiats
    ensures CliItems(cliFiats) == [] && defaultFiats == [] ==> r == FallbackFiats
  {
    var items := CliItems(cliFiats);
    var fiats := if items == [] && defaultFiats != [] then defaultFiats else items;
    if fiats == [] then FallbackFiats else fiats
  }

  /** `_parse_fiats(cli_fiats)` with DEFAULT_FIATS given: the candidates,
      first occurrences only, in order. */
  function ParseFiats(cliFiats: seq<string>, defaultFiats: seq<string>): (r: seq<string>)
    ensures r != []
    ensures NoDuplicates(r)
    ensures forall x :: x in r <==> x in Candidates(cliFiats, defaultFiats)
    ensures forall i, j :: 0 <= i < j < |r| ==>
      FirstIndex(Candidates(cliFiats, defaultFiats), r[i]) < FirstIndex(Candidates(cliFiats, defaultFiats), r[j])
  {
    var c := Candidates(cliFiats, defaultFiats);
    DedupProperties(c);
    assert c[0] in Dedup(c);
    Dedup(c)
  }

  /** The de-duplicating loop of `_parse_fiats` computes the same list. */
  method ParseFiatsLoop(cliFiats: seq<string>, defaultFiats: seq<string>) returns (ordered: seq<string>)
    ensures ordered == ParseFiats(cliFiats, defaultFiats)
  {
    ordered := DedupInOrder(Candidates(cliFiats, defaultFiats));
  }

  /** Blank entries name nothing, so the defaults (or MXN) take over. */
  lemma BlankEntriesFallBack(entries: seq<string>, defaultFiats: seq<string>)
    requires forall i :: 0 <= i < |entries| ==> IsBlank(entries[i])
    ensures ParseFiats(entries, defaultFiats) == Dedup(if defaultFiats != [] then defaultFiats else ["MXN"])
    ensures ParseFiats(entries, []) == ["MXN"]
  {
    BlankEntriesNameNothing(entries);
    assert Dedup(["MXN"]) == ["MXN"];
  }

  /** A result row of `_collect_for_fiat`. */
  type Row = map<string, Json>

  /** The fields every row carries. */
  function BaseRow(fiat: string, asset: string, refFiat: string, buy: Option<real>, sell: Option<real>,
                   fx: Option<Xe.FxRate>): Row {
    map["fiat" := JStr(fiat), "asset" := JStr(asset), "ref_fiat" := JStr(refFiat),
        "buy_rate" := OptNum(buy), "sell_rate" := OptNum(sell), "fx" := Xe.ToJson(fx)]
  }

  /** The premium fields as JSON numbers. */
  function PremiumFields(p: Compute.Premiums): (m: Row)
    ensures m.Keys == Compute.ToDict(p).Keys
    ensures forall k :: k in m ==> m[k] == JNum(Compute.ToDict(p)[k])
  {
    var d := Compute.ToDict(p);
    map k | k in d :: JNum(d[k])
  }

  /** Any premiums: only the key set of their dict matters. */
  const PremiumsZero := Compute.Premiums(0.0, 0.0, 0.0)

  /** How `_collect_for_fiat` classifies one fiat, in the order it checks. */
  datatype Outcome =
    | P2pMissing
    | FxMissing
    | ComputeFailed(error: Compute.ComputeError)
    | Ok(premiums: Compute.Premiums)

  /** The checks of `_collect_for_fiat`: a missing buy or sell price first,
      then a missing FX rate, then `compute_premiums(sell, buy, fx bid,
      fx ask, decimals)`. */
  function Classify(buy: Option<real>, sell: Option<real>, fx: Option<Xe.FxRate>, decimals: Option<int>,
                    parse: FloatParser): (o: Outcome)
    ensures o == P2pMissing <==> buy.None? || sell.None?
    ensures o == FxMissing <==> buy.Some? && sell.Some? && fx.None?
    ensures (o.Ok? || o.ComputeFailed?) ==>
      && buy.Some? && sell.Some? && fx.Some?
      && var r := Compute.ComputePremiums(JNum(sell.value), JNum(buy.value), JNum(fx.value.bid),
                                          JNum(fx.value.ask), decimals, parse);
         (o.Ok? ==> r == Success(o.premiums)) && (o.ComputeFailed? ==> r == Failure(o.error))
  {
    if buy.None? || sell.None? then P2pMissing
    else if fx.None? then FxMissing
    else
      match Compute.ComputePremiums(JNum(sell.value), JNum(buy.value), JNum(fx.value.bid),
                                    JNum(fx.value.ask), decimals, parse)
      case Success(p) => Ok(p)
      case Failure(e) => ComputeFailed(e)
  }

  /** The "error" text of a failed outcome. */
  function ErrorText(o: Outcome): (s: string)
    requires !o.Ok?
    ensures s != ""
  {
    match o
    case P2pMissing => InsufficientP2p
    case FxMissing => InsufficientFx
    case ComputeFailed(e) => ComputeErrorPrefix + Compute.Message(e)
  }

  /** The row of an outcome: the base fields, then either the premium
      fields and status "ok", or the error. */
  function RowOf(base: Row, o: Outcome): (row: Row)
    requires "error" !in base && "status" !in base
    requires forall k :: k in base ==> k !in Compute.ToDict(PremiumsZero)
    ensures forall k :: k in base ==> k in row && row[k] == base[k]
    ensures ("status" in row <==> o.Ok?) && ("error" in row <==> !o.Ok?)
    ensures o.Ok? ==> (
      && row["status"] == JStr("ok")
      && forall k :: k in Compute.ToDict(o.premiums) ==> k in row && row[k] == JNum(Compute.ToDict(o.premiums)[k]))
    ensures !o.Ok? ==> row["error"] == JStr(ErrorText(o)) && row == base["error" := JStr(ErrorText(o))]
  {
    if o.Ok? then
      var p := PremiumFields(o.premiums);
      assert p.Keys == Compute.ToDict(PremiumsZero).Keys;
      (base + p)["status" := JStr("ok")]
    else base["error" := JStr(ErrorText(o))]
  }

  /** Every row has either an error, a non-empty string, or a status. */
  predicate WellFormed(row: Row) {
    && ("error" in row) != ("status" in row)
    && ("error" in row ==> row["error"].JStr? && row["error"].s != "")
  }

  /** `_collect_for_fiat` after its three fetches: the row of its outcome
      (see RowRecordsRequest and RowRecordsRates for what every row
      records). */
  function CollectForFiat(fiat: string, asset: string, refFiat: string, buy: Option<real>, sell: Option<real>,
                          fx: Option<Xe.FxRate>, decimals: Option<int>, parse: FloatParser): (row: Row)
    ensures WellFormed(row)
  {
    RowOf(BaseRow(fiat, asset, refFiat, buy, sell, fx), Classify(buy, sell, fx, decimals, parse))
  }

  /** Every row records the fiat, asset and reference fiat, whatever the
      outcome. */
  lemma RowRecordsRequest(fiat: string, asset: string, refFiat: string, buy: Option<real>, sell: Option<real>,
                          fx: Option<Xe.FxRate>, o: Outcome)
    ensures var row := RowOf(BaseRow(fiat, asset, refFiat, buy, sell, fx), o);
      && "fiat" in row && row["fiat"] == JStr(fiat)
      && "asset" in row && row["asset"] == JStr(asset)
      && "ref_fiat" in row && row["ref_fiat"] == JStr(refFiat)
  {
    var base := BaseRow(fiat, asset, refFiat, buy, sell, fx);
    assert base["fiat"] == JStr(fiat) && base["asset"] == JStr(asset) && base["ref_fiat"] == JStr(refFiat);
  }

  /** Every row records both P2P prices (null when missing) and the FX
      rate, whatever the outcome. */
  lemma RowRecordsRates(fiat: string, asset: string, refFiat: string, buy: Option<real>, sell: Option<real>,
                        fx: Option<Xe.FxRate>, o: Outcome)
    ensures var row := RowOf(BaseRow(fiat, asset, refFiat, buy, sell, fx), o);
      && "buy_rate" in row && row["buy_rate"] == OptNum(buy)
      && "sell_rate" in row && row["sell_rate"] == OptNum(sell)
      && "fx" in row && row["fx"] == Xe.ToJson(fx)
  {
    var base := BaseRow(fiat, asset, refFiat, buy, sell, fx);
    assert base["buy_rate"] == OptNum(buy) && base["sell_rate"] == OptNum(sell) && base["fx"] == Xe.ToJson(fx);
  }

  /** The error order: missing P2P data wins over missing FX data. */
  lemma ErrorOrder(fiat: string, asset: string, refFiat: string, buy: Option<real>, sell: Option<real>,
                   fx: Option<Xe.FxRate>, decimals: Option<int>, parse: FloatParser)
    ensures var row := CollectForFiat(fiat, asset, refFiat, buy, sell, fx, decimals, parse);
      && (buy.None? || sell.None? ==> "error" in row && row["error"] == JStr("insufficient_p2p_data"))
      && (buy.Some? && sell.Some? && fx.None? ==> "error" in row && row["error"] == JStr("insufficient_fx_data"))
  {
  }

  /** With positive P2P prices and an FX rate, the outcome is "ok" exactly
      when both FX sides are positive; otherwise the error names the first
      bad FX side. */
  lemma CollectOkIffPositiveFx(buy: real, sell: real, fx: Xe.FxRate, decimals: Option<int>, parse: FloatParser)
    requires buy > 0.0 && sell > 0.0
    ensures var o := Classify(Some(buy), Some(sell), Some(fx), decimals, parse);
      && (o.Ok? <==> fx.bid > 0.0 && fx.ask > 0.0)
      && (fx.bid <= 0.0 ==> o == ComputeFailed(Compute.InvalidRate("fx_bid", Compute.NotPositive(fx.bid))))
      && (fx.bid > 0.0 && fx.ask <= 0.0 ==> o == ComputeFailed(Compute.InvalidRate("fx_ask", Compute.NotPositive(fx.ask))))
  {
    assert ValidatePositiveOk(sell, "sell_rate", parse);
    assert ValidatePositiveOk(buy, "buy_rate", parse);
  }

  /** The row text for a non-positive FX bid. */
  lemma NonPositiveBidRow(fiat: string, asset: string, refFiat: string, buy: real, sell: real,
                          fx: Xe.FxRate, decimals: Option<int>, parse: FloatParser)
    requires buy > 0.0 && sell > 0.0 && fx.bid <= 0.0
    ensures var row := CollectForFiat(fiat, asset, refFiat, Some(buy), Some(sell), Some(fx), decimals, parse);
      "error" in row && row["error"] == JStr("compute_error: fx_bid must be > 0")
  {
    CollectOkIffPositiveFx(buy, sell, fx, decimals, parse);
    var e := Compute.InvalidRate("fx_bid", Compute.NotPositive(fx.bid));
    assert Compute.Message(e) == "fx_bid must be > 0";
    assert ErrorText(ComputeFailed(e)) == "compute_error: fx_bid must be > 0";
  }

  predicate ValidatePositiveOk(x: real, name: string, parse: FloatParser) {
    Compute.ValidatePositive(name, JNum(x), parse) == Success(x)
  }

  /** The values of an "ok" row are the rounded raw metrics. */
  lemma OkRowValues(fiat: string, asset: string, refFiat: string, buy: real, sell: real,
                    fx: Xe.FxRate, decimals: Option<int>, parse: FloatParser)
    requires buy > 0.0 && sell > 0.0 && fx.bid > 0.0 && fx.ask > 0.0
    ensures var row := CollectForFiat(fiat, asset, refFiat, Some(buy), Some(sell), Some(fx), decimals, parse);
      var p := Compute.RoundAll(Compute.RawPremiums(sell, buy, fx.bid, fx.ask), decimals);
      && "status" in row && row["status"] == JStr("ok")
      && "stablecoin_sell_premium" in row && row["stablecoin_sell_premium"] == JNum(p.sellPremium)
      && "stablecoin_buy_premium" in row && row["stablecoin_buy_premium"] == JNum(p.buyPremium)
      && "stablecoin_buy_sell_spread" in row && row["stablecoin_buy_sell_spread"] == JNum(p.buySellSpread)
  {
    var p := Compute.RoundAll(Compute.RawPremiums(sell, buy, fx.bid, fx.ask), decimals);
    assert Classify(Some(buy), Some(sell), Some(fx), decimals, parse) == Ok(p);
    assert "stablecoin_sell_premium" in Compute.ToDict(p);
  }

  /** The P2P and FX sources of one run: the ads Binance would return for
      (fiat, asset, side), and the XE credentials and network. */
  datatype Sources = Sources(
    adsFor: (string, string, string) -> seq<Json>,
    xeAccountId: Option<string>,
    xeKey: Option<string>,
    xeBaseUrl: string,
    get: HttpGet)

  /** One fiat's row, with Binance's default trimming (top 5, last 3) and
      XE's default request (amount 1, 6 decimals). */
  function RowFor(fiat: string, asset: string, refFiat: string, minValidAds: Option<int>, decimals: Option<int>,
                  src: Sources, parse: FloatParser): (row: Row)
    ensures "error" in row ==> row["error"].JStr? && row["error"].s != ""
    ensures ("error" in row) != ("status" in row)
  {
    var buy := Binance.AveragePrice(src.adsFor(fiat, asset, "BUY"), Binance.DefaultTakeTop,
                                    Binance.DefaultAverageLastN, minValidAds, parse);
    var sell := Binance.AveragePrice(src.adsFor(fiat, asset, "SELL"), Binance.DefaultTakeTop,
                                     Binance.DefaultAverageLastN, minValidAds, parse);
    var fx := Xe.FetchFxRate(src.xeAccountId, src.xeKey, src.xeBaseUrl, fiat, refFiat,
                             Xe.DefaultAmount, Xe.DefaultDecimalPlaces, src.get, parse);
    CollectForFiat(fiat, asset, refFiat, buy, sell, fx, decimals, parse)
  }

  /** Without XE credentials no row can be "ok". */
  lemma NoCredentialsNoRate(fiat: string, asset: string, refFiat: string, minValidAds: Option<int>,
                            decimals: Option<int>, src: Sources, parse: FloatParser)
    requires !Xe.IsConfigured(src.xeAccountId, src.xeKey)
    ensures "error" in RowFor(fiat, asset, refFiat, minValidAds, decimals, src, parse)
  {
  }

  /** One row per fiat, in order. */
  function RowsOf(fiats: seq<string>, rowFor: string -> Row): (rows: seq<Row>)
    ensures |rows| == |fiats|
  {
    seq(|fiats|, i requires 0 <= i < |fiats| => rowFor(fiats[i]))
  }

  lemma RowsOfSnoc(fiats: seq<string>, i: int, rowFor: string -> Row)
    requires 0 <= i < |fiats|
    ensures RowsOf(fiats[..i + 1], rowFor) == RowsOf(fiats[..i], rowFor) + [rowFor(fiats[i])]
  {
    assert forall k :: 0 <= k < i ==> fiats[..i + 1][k] == fiats[..i][k];
  }

  /** `any(r.get("error") for r in rows)`. */
  predicate AnyError(rows: seq<Row>) {
    exists i :: 0 <= i < |rows| && "error" in rows[i] && Truthy(rows[i]["error"])
  }

  /** The exit code of `main`: 1 when some row has a truthy error, else 0. */
  function ExitCode(rows: seq<Row>): (code: int)
    ensures code == 0 || code == 1
    ensures code == 1 <==> AnyError(rows)
  {
    if AnyError(rows) then 1 else 0
  }

  /** The exit code is 0 exactly when every row is "ok". */
  lemma ExitCodeIffAllOk(rows: seq<Row>)
    requires forall k :: 0 <= k < |rows| ==> WellFormed(rows[k])
    ensures ExitCode(rows) == 0 <==> forall i :: 0 <= i < |rows| ==> "status" in rows[i]
  {
  }

  /** `main` after argument parsing: one row per parsed fiat, in order,
      and the exit code; a loop as in the source. */
  method Run(cliFiats: seq<string>, defaultFiats: seq<string>, asset: string, refFiat: string,
             minValidAds: Option<int>, decimals: Option<int>, src: Sources, parse: FloatParser)
    returns (rows: seq<Row>, code: int)
    ensures var fiats := ParseFiats(cliFiats, defaultFiats);
      && |rows| == |fiats|
      && forall i :: 0 <= i < |rows| ==> rows[i] == RowFor(fiats[i], asset, refFiat, minValidAds, decimals, src, parse)
    ensures |rows| >= 1
    ensures code == 0 <==> forall i :: 0 <= i < |rows| ==> "status" in rows[i]
  {
    var fiats := ParseFiatsLoop(cliFiats, defaultFiats);
    var rowFor := (fiat: string) => RowFor(fiat, asset, refFiat, minValidAds, decimals, src, parse);
    rows := [];
    var i := 0;
    while i < |fiats|
      invariant 0 <= i <= |fiats|
      invariant rows == RowsOf(fiats[..i], rowFor)
    {
      RowsOfSnoc(fiats, i, rowFor);
      rows := rows + [rowFor(fiats[i])];
      i := i + 1;
    }
    assert fiats[..i] == fiats;
    assert forall k :: 0 <= k < |rows| ==> rows[k] == rowFor(fiats[k]);
    code := ExitCode(rows);
    ExitCodeIffAllOk(rows);
  }
}
