# stablecoin-premiums in Dafny

`stablecoin-premiums` measures how far stablecoin (USDT) prices on fiat
peer-to-peer markets drift from the official exchange rate. For each fiat
it takes the trimmed average of the cheapest valid Binance P2P buy and sell
ads, fetches an FX mid/bid/ask from XE, and reports three percentages:

- the sell premium, sell price against the FX bid;
- the buy premium, buy price against the FX ask;
- the buy/sell spread.

The results can be rounded. The command-line entry point loops over a
de-duplicated list of fiats. It builds one result row per fiat and exits
with 1 when any row carries an error. Two further clients are part of the
package. Eldorado serves a nested price table. CoinAPI serves reference
exchange rates. A small environment-driven configuration module feeds
every client.

This project models that core as pure Dafny functions over immutable
values. Each module follows one source file:

| module | file | what it holds |
|---|---|---|
| `Compute` | `compute.dfy` | validation, premium and spread formulas, rounding, `Premiums.to_dict` |
| `Binance` | `binance.dfy` | ad validity and `average_price` after the fetch |
| `Xe` | `xe.dfy` | `fetch_fx_rate` |
| `CoinApi` | `coinapi.dfy` | `get_exchange_rate`, `get_symbol_rate` |
| `Eldorado` | `eldorado.dfy` | URL joining, price extraction, `fetch_quote`, `fetch_all_quotes` |
| `Config` | `config.dfy` | the env helpers, the module settings, `asdict` |
| `Cli` | `cli.dfy` | `_parse_fiats`, `_collect_for_fiat`, the loop and exit code of `main` |

Shared pieces live in their own modules:

- `PyValues` (decoded JSON values, `dict.get`, truthiness, `float()`, one HTTP GET);
- `Text` (Python's `strip`, `rstrip`, `split`, `join`, `upper`);
- `Seqs` (Python slicing, means, sorting, order-preserving de-duplication);
- `Rounding` (Python's `round(x, n)` with ties to even);
- `Wrappers` (`Option`, `Result`);
- `Examples` (the package's worked example).

The outside world enters only as parameters:

- The network is a function `HttpGet` from a `Request` (URL, query
  parameters, headers, basic auth) to the decoded body. `None` stands for a
  request exception, a bad HTTP status or an undecodable body.
- The process environment is a map.
- Python's `float(str)` and `int(str)` on text are the parameters
  `FloatParser` and `IntParser`.
- The ads Binance would return are an input.

Where the code lets an exception escape, the model returns a `Result` and
the error is visible. Where the code returns None, the model returns an
`Option`.

Two places where the code and its documentation disagree were settled in
favour of the code:

- **Eldorado base URL.** The Eldorado client falls back to
  `https://api.eldorado.com` when the package setting is empty
  (`Eldorado.FallbackBaseUrl`). The configuration module defaults to
  `https://api.eldorado.io/api` (`Config.DefaultEldoradoBaseUrl`). The
  package setting is never empty, so the client's own fallback is reachable
  only outside the package (`Eldorado.AlwaysConfigured`).
- **Rounding and sign.** Python's `round` sends exact ties to the even
  neighbour. A value exactly half a unit from zero therefore rounds to zero
  when it is a binary float, as 0.5 is at no decimals
  (`Rounding.HalfUnitTiesToZero`). So rounding keeps a strict sign only for
  values more than half a unit from zero (`Rounding.RoundKeepsSign`).

## Model

| member | source | states |
|---|---|---|
| Compute.ValidatePositive | src/stablecoin_premiums/compute.py:80-94 | succeeds exactly for a non-None value whose `float()` is > 0, returning it; otherwise the error names the parameter, and None and a non-positive number get their own errors |
| Compute.PremiumSign | src/stablecoin_premiums/compute.py:97-113 | the premium is positive, zero or negative exactly as the observed rate is above, equal to or below the reference, and stays above -100% for a positive rate |
| Compute.PremiumInverse | src/stablecoin_premiums/compute.py:97-113 | the premium determines the observed rate: rate = reference * (1 + premium/100) |
| Compute.ComputePremium | src/stablecoin_premiums/compute.py:97-113 | numerator validated first, then denominator; for positive numbers the result is the premium formula, above -100% and positive iff numerator > denominator; a validated non-number fails at `/` |
| Compute.SpreadSign | src/stablecoin_premiums/compute.py:116-132 | the spread has the sign of buy - sell and stays above -100% for a positive buy rate |
| Compute.SpreadInverse | src/stablecoin_premiums/compute.py:116-132 | the spread determines the buy rate from the sell rate and equals the premium of buy over sell |
| Compute.ComputeSpread | src/stablecoin_premiums/compute.py:116-132 | buy validated before sell; for positive numbers the result is the spread formula, above -100% and negative iff buy < sell; a validated non-number fails at `-` |
| Compute.MaybeRound | src/stablecoin_premiums/compute.py:135-141 | no decimals leaves the value unchanged; with decimals the result is within half a unit of the value |
| Rounding.RoundingError | src/stablecoin_premiums/compute.py:141 | `round(x, d)` moves x by at most half of 10^-d |
| Rounding.RoundKeepsSign | src/stablecoin_premiums/compute.py:141 | rounding never flips a sign, keeps zero, and keeps a strict sign beyond half a unit |
| Rounding.RoundIdempotent | src/stablecoin_premiums/compute.py:141 | rounding a rounded value changes nothing |
| Rounding.HalfUnitTiesToZero | src/stablecoin_premiums/compute.py:141 | exact binary-float ties go to the even neighbour: ±0.5 and 2.5 round to 0.0 and 2.0 at no decimals, 0.125 and 0.375 to 0.12 and 0.38 at two |
| Compute.ComputePremiums | src/stablecoin_premiums/compute.py:144-188 | the first invalid rate in the order sell, buy, fx_bid, fx_ask is the error; success iff all four are positive numbers, and then the three raw metrics each rounded once |
| Compute.ValidNumbersNeverFail | src/stablecoin_premiums/compute.py:170-188 | for four positive rates no step can fail and, unrounded, the fields are the sell premium over the bid, the buy premium over the ask and the spread |
| Compute.RoundedFieldsNearRaw | src/stablecoin_premiums/compute.py:178-188 | with decimals each field is the raw metric rounded on its own, within half a unit of it, with a non-negative sell premium and a non-positive spread kept so |
| Compute.ToDict | src/stablecoin_premiums/compute.py:60-77 | `to_dict()` has exactly the three field names, each mapped to its field |
| Compute.ToDictRoundTrip | src/stablecoin_premiums/compute.py:75-77 | the dict form reads back to the same premiums and has three entries |
| Examples.FormulaValuesAtDocumentedInputs | tests/test_compute.py:95-119 | at sell 18.95, buy 18.70, FX 17.12 the exact results are 4575/428, 1975/214 and -500/379, rounded 10.69, 9.23 and -1.32 |
| Examples.DocumentedLiteralsMissTolerance | tests/test_compute.py:95-119 | the expected literals of the worked example fall outside pytest's default tolerance of the formula's values, and the rounded buy premium is not 9.24 |
| Binance.ValidAdCharacterization | src/stablecoin_premiums/clients/binance.py:55-76 | an ad is valid iff price > 0, min (default 0) >= 0, max (default 1e18) > 0 and min <= max |
| Binance.MalformedAdsInvalid | src/stablecoin_premiums/clients/binance.py:55-76 | a missing or non-dict "adv", a missing or null price and a null limit all make the ad invalid |
| Binance.ValidPrices | src/stablecoin_premiums/clients/binance.py:198 | the prices kept by the validity filter are positive and no more than the ads |
| Binance.ValidPricesAppend | src/stablecoin_premiums/clients/binance.py:198 | filtering distributes over concatenation of ad lists |
| Binance.ValidPricesPermutation | src/stablecoin_premiums/clients/binance.py:198 | reordering the ads reorders the valid prices and nothing more |
| Seqs.Sort | src/stablecoin_premiums/clients/binance.py:203 | the ascending sort is a sorted permutation of its input |
| Seqs.SortedUnique | src/stablecoin_premiums/clients/binance.py:203 | two ascending arrangements of one multiset are equal |
| Seqs.SortPermutationInvariant | src/stablecoin_premiums/clients/binance.py:203 | the sorted result depends only on the elements, not their input order |
| Seqs.LastN | src/stablecoin_premiums/clients/binance.py:216 | `s[-n:]` is the last n elements for 0 < n <= len, the whole list for n == 0, and drops the first -n for n < 0 |
| Binance.TrimmedMean | src/stablecoin_premiums/clients/binance.py:208-219 | fewer than max(average_last_n, 1) of the top max(take_top, 0) prices gives no average; otherwise the mean of the last average_last_n of the k top prices, of all k for 0, and of those after the first -average_last_n for a negative value |
| Binance.TopCount | src/stablecoin_premiums/clients/binance.py:208 | `valid_ads[: max(take_top, 0)]` keeps min(n, max(take_top, 0)) prices |
| Seqs.MeanOfDrawn | src/stablecoin_premiums/clients/binance.py:216-219 | a mean of elements drawn from a list lies between its least and greatest element, and is positive when all are |
| Binance.AveragePrice | src/stablecoin_premiums/clients/binance.py:194-221 | no ads, too few valid ads or too few top ads give None; with ads and enough valid ones the result is the trimmed mean of the ascending valid prices; an average lies between the least and greatest valid price and is positive |
| Binance.AverageOfCheapest | src/stablecoin_premiums/clients/binance.py:203-219 | for any take_top and average_last_n > 0, with enough valid ads, the average is the mean of the average_last_n prices ending at the k-th cheapest, k = min(take_top, valid count), and None when k < average_last_n |
| Binance.AverageOfArrangement | src/stablecoin_premiums/clients/binance.py:194-221 | any ascending arrangement of the valid prices gives the same average as the sorted list |
| Binance.AverageDependsOnlyOnValidPrices | src/stablecoin_premiums/clients/binance.py:194-221 | two ad lists with the same multiset of valid prices give the same average |
| Binance.AverageIgnoresOrderAndInvalidAds | src/stablecoin_premiums/clients/binance.py:194-221 | shuffling the ads or appending invalid ads leaves the average unchanged |
| Binance.DefaultsAverageThirdToFifthCheapest | src/stablecoin_premiums/clients/binance.py:147-149 | with the defaults and at least five valid ads the average is the mean of the 3rd, 4th and 5th cheapest prices |
| Binance.LastZeroAveragesAllTop | src/stablecoin_premiums/clients/binance.py:208-219 | with average_last_n == 0 all of the take_top cheapest valid prices are averaged |
| Binance.NoValidAdNoAverage | src/stablecoin_premiums/clients/binance.py:198-210 | with no valid ad there is never an average |
| PyValues.OrStr | src/stablecoin_premiums/clients/xe.py:63 | `setting or fallback`, as each client picks its base URL: the setting when non-empty, else the fallback, empty only when both are |
| Xe.FxRequest | src/stablecoin_premiums/clients/xe.py:113-127 | the request converts from the reference fiat to the base fiat at `/v1/convert_from.json` with basic auth |
| Xe.RateOfRow | src/stablecoin_premiums/clients/xe.py:136-147 | a rate exists iff the row's mid converts; bid and ask fall back to mid |
| Xe.FxFromPayloadAsWritten | src/stablecoin_premiums/clients/xe.py:129-151 | a non-dict payload or first row raises; a falsy or non-list "to" gives None; otherwise the first row's rate |
| Xe.FxFromPayload | src/stablecoin_premiums/clients/xe.py:129-151 | as written where that returns, and None where it raises |
| Xe.NonObjectRowRaises | src/stablecoin_premiums/clients/xe.py:132-137 | a null first row or a list payload makes the code as written raise |
| Xe.FxFromPayloadOfPayload | src/stablecoin_premiums/clients/xe.py:131-147 | an XE payload reads back to its mid, and its bid and ask or the mid in their place |
| Xe.OnlyFirstRow | src/stablecoin_premiums/clients/xe.py:136 | rows after the first are ignored |
| Xe.NoRowsNoRate | src/stablecoin_premiums/clients/xe.py:132-134 | a missing, empty or non-list "to" gives None |
| Xe.FetchFxRateAsWritten | src/stablecoin_premiums/clients/xe.py:110-151 | unconfigured or failed requests give None; AttributeError escapes exactly when a response is not a dict or its first row is not a dict; no rows give None; a dict first row gives its mid/bid/ask |
| Xe.FetchFxRate | src/stablecoin_premiums/clients/xe.py:84-151 | agrees with the code as written wherever that returns, and gives None where it raises |
| Xe.ToDict | src/stablecoin_premiums/clients/xe.py:147 | the rate dict has exactly mid, bid and ask |
| Xe.ToJson | src/stablecoin_premiums/clients/xe.py:147 | a missing rate is null, a present one a truthy dict with mid, bid and ask |
| CoinApi.Headers | src/stablecoin_premiums/clients/coinapi.py:84-94 | JSON accept and the user agent always; the key header exactly when a key is configured |
| CoinApi.ExchangeRateUrl | src/stablecoin_premiums/clients/coinapi.py:126 | the URL is the base without trailing slashes, `/v1/exchangerate/`, then base/quote |
| CoinApi.SymbolRateUrl | src/stablecoin_premiums/clients/coinapi.py:184 | the URL is the base without trailing slashes, `/v1/exchangerate/`, then the symbol |
| CoinApi.UrlProperties | src/stablecoin_premiums/clients/coinapi.py:126 | a "BASE/QUOTE" symbol reaches the pair URL, and a trailing slash on the base changes nothing |
| CoinApi.QueryParams | src/stablecoin_premiums/clients/coinapi.py:127-131 | "time" only when truthy, with extra parameters merged over it |
| CoinApi.RateFromResponseAsWritten | src/stablecoin_premiums/clients/coinapi.py:138-148 | raises exactly for a non-dict body; a rate exists iff "rate" converts to a positive number, and then it is that number, or its reciprocal when inverting |
| CoinApi.RateFromResponse | src/stablecoin_premiums/clients/coinapi.py:138-148 | as written for a dict body, None otherwise; a positive "rate" gives it, or its reciprocal when inverting |
| CoinApi.NonDictBodyRaises | src/stablecoin_premiums/clients/coinapi.py:138-139 | a list body makes the code as written raise |
| CoinApi.InvertIsReciprocal | src/stablecoin_premiums/clients/coinapi.py:140-144 | the inverted rate exists iff the plain one does, and their product is 1 |
| CoinApi.RateOfBody | src/stablecoin_premiums/clients/coinapi.py:139-144 | `{"rate": x}` gives x or 1/x for x > 0 and None otherwise |
| CoinApi.GetExchangeRateAsWritten | src/stablecoin_premiums/clients/coinapi.py:123-148 | None when unconfigured or the request fails; otherwise the rate handling as written |
| CoinApi.GetExchangeRate | src/stablecoin_premiums/clients/coinapi.py:97-148 | None when unconfigured, positive when present, as written wherever that returns and None where it raises |
| CoinApi.GetSymbolRateAsWritten | src/stablecoin_premiums/clients/coinapi.py:151-207 | None when unconfigured or the request fails; raises exactly when a configured request returns a non-dict body |
| CoinApi.SymbolListBodyRaises | src/stablecoin_premiums/clients/coinapi.py:195-197 | a list body from the symbol URL makes the code as written raise |
| CoinApi.GetSymbolRate | src/stablecoin_premiums/clients/coinapi.py:151-207 | the same handling on the symbol URL: as written wherever that returns and None where it raises |
| CoinApi.SymbolRateMatchesExchangeRate | src/stablecoin_premiums/clients/coinapi.py:97-207 | a symbol naming the pair gives the same result as the pair call |
| Eldorado.AlwaysConfigured | src/stablecoin_premiums/clients/eldorado.py:76-98 | with the package settings the client is configured and uses the package URL |
| Eldorado.JoinUrl | src/stablecoin_premiums/clients/eldorado.py:101-110 | the base without trailing slashes, then nothing for an empty path, the path itself when it starts with a slash, else a slash and the path |
| Eldorado.JoinUrlLeadingSlash | src/stablecoin_premiums/clients/eldorado.py:108-110 | a path with or without its leading slash joins the same |
| Eldorado.JoinUrlTrailingSlash | src/stablecoin_premiums/clients/eldorado.py:105 | a trailing slash on the base changes nothing |
| Eldorado.JoinUrlRecoversPath | src/stablecoin_premiums/clients/eldorado.py:101-110 | the path can be read back from the joined URL |
| Eldorado.FetchPricesRaw | src/stablecoin_premiums/clients/eldorado.py:113-142 | None when unconfigured; the body exactly when the request succeeds with a dict |
| Eldorado.Layer | src/stablecoin_premiums/clients/eldorado.py:145-175 | one level of the lookup succeeds iff the key holds a dict |
| Eldorado.ExtractPrice | src/stablecoin_premiums/clients/eldorado.py:145-175 | a missing or non-dict level, or a missing or null "price", gives None; otherwise the result is the conversion of payload[side][asset][base]["price"] |
| Eldorado.ExtractFromNest | src/stablecoin_premiums/clients/eldorado.py:145-175 | the stored price is the one extracted, and no other key path finds it |
| Eldorado.ExtractIgnoresOtherSides | src/stablecoin_premiums/clients/eldorado.py:145-175 | entries under other sides do not affect the extraction |
| Eldorado.FetchQuote | src/stablecoin_premiums/clients/eldorado.py:178-212 | only BUY or SELL after upper-casing; an empty or failed fetch gives None; otherwise a quote exactly when the price extracts, carrying the codes, the upper side and that price |
| Eldorado.FetchQuoteIgnoresCase | src/stablecoin_premiums/clients/eldorado.py:200 | the side's letter case does not matter |
| Eldorado.FetchQuoteFinds | src/stablecoin_premiums/clients/eldorado.py:200-212 | a table holding the entry yields its quote, whatever the price, a non-positive one included |
| Eldorado.UpperSidesMembers | src/stablecoin_premiums/clients/eldorado.py:242 | the sides used are exactly the upper-cased non-empty requested sides |
| Eldorado.QuotesForBaseSound | src/stablecoin_premiums/clients/eldorado.py:244-256 | every quote of a base code is for a requested side and carries the extracted price |
| Eldorado.QuotesForBaseComplete | src/stablecoin_premiums/clients/eldorado.py:244-256 | every requested side with an extractable price has its quote |
| Eldorado.QuotesForSound | src/stablecoin_premiums/clients/eldorado.py:243-256 | every quote is for a requested base and side and carries the extracted price |
| Eldorado.QuotesForComplete | src/stablecoin_premiums/clients/eldorado.py:243-256 | every requested base and side with an extractable price has its quote |
| Eldorado.QuotesForAppend | src/stablecoin_premiums/clients/eldorado.py:243-256 | output is base-major: the quotes of two base lists concatenate |
| Eldorado.CollectForBase | src/stablecoin_premiums/clients/eldorado.py:244-256 | the inner loop computes the quotes of one base code |
| Eldorado.CollectQuotes | src/stablecoin_premiums/clients/eldorado.py:243-256 | the nested loops compute the quotes of every base code in order |
| Eldorado.FetchAllQuotes | src/stablecoin_premiums/clients/eldorado.py:237-240 | unconfigured, no base codes, or an empty or failed fetch gives [] |
| Eldorado.FetchAllQuotesContents | src/stablecoin_premiums/clients/eldorado.py:215-257 | the quotes are exactly those of requested bases and upper-cased sides with an extractable price |
| Eldorado.FetchAllQuotesAnySideAnyPrice | src/stablecoin_premiums/clients/eldorado.py:200-256 | a side the single-quote call rejects is accepted, and its negative price kept; only the accepted sides differ, as neither call filters prices |
| Config.GetEnv | src/stablecoin_premiums/config.py:75-80 | an unset or empty variable gives the default, any other value itself |
| Config.GetEnvKeepsWhitespace | src/stablecoin_premiums/config.py:75-80 | a whitespace-only value is returned, not treated as unset |
| Config.GetParsed | src/stablecoin_premiums/config.py:83-102 | `get_int` and `get_float`: an unset, blank or unparsable variable gives the default, else the parsed value |
| Config.ParseList | src/stablecoin_premiums/config.py:105-113 | unset or blank gives `default or []`; otherwise the non-empty stripped comma pieces, in order with repeats, each clean |
| Config.ParseListJoin | src/stablecoin_premiums/config.py:105-113 | clean items joined with commas parse back to themselves |
| Text.JoinSplit | src/stablecoin_premiums/config.py:113 | joining the split pieces gives back the input |
| Text.SplitJoin | src/stablecoin_premiums/config.py:113 | splitting a join of separator-free pieces gives back the pieces |
| Text.StripProperties | src/stablecoin_premiums/config.py:113 | `strip()` gives the piece between blank ends, not starting or ending with whitespace, empty iff the input is blank |
| Text.StripIdempotent | src/stablecoin_premiums/config.py:113 | stripping twice is stripping once |
| Text.StripNonEmptyMembers | src/stablecoin_premiums/config.py:113 | the kept items are exactly the non-empty stripped pieces |
| Text.StripNonEmptyAppend | src/stablecoin_premiums/config.py:113 | the comprehension distributes over concatenation, so order and repeats are kept |
| Text.StripNonEmptyOne | src/stablecoin_premiums/config.py:113 | one piece is kept, stripped, exactly when it is not blank |
| Config.Require | src/stablecoin_premiums/config.py:116-125 | succeeds iff the value is present and non-empty, returning it; the error names the variable |
| Config.RequireEnv | src/stablecoin_premiums/config.py:116-125 | requiring a `get_env` value succeeds iff the variable is set and non-empty |
| Config.EnvOr | src/stablecoin_premiums/config.py:135-149 | `get_env(n, d) or d` is never empty: the variable when set and non-empty, else d |
| Config.Load | src/stablecoin_premiums/config.py:133-171 | each setting is its variable when set and non-empty and its default otherwise; numbers follow `get_int`/`get_float`, fiats `parse_list`, the level is upper-cased; URLs, asset, fiat and level are never empty |
| Text.UpperIdempotent | src/stablecoin_premiums/config.py:171 | upper-casing twice is upper-casing once |
| Config.LoadEmptyEnv | src/stablecoin_premiums/config.py:133-171 | with nothing set every setting is its default |
| Config.AsDict | src/stablecoin_premiums/config.py:174-197 | `asdict()` has exactly the thirteen setting names |
| Config.AsDictRoundTrip | src/stablecoin_premiums/config.py:174-197 | every setting can be read back from `asdict()` |
| Cli.EntryItemsMembers | src/stablecoin_premiums/cli.py:76-80 | an entry's items are exactly its non-empty stripped comma pieces |
| Cli.BlankEntryNamesNothing | src/stablecoin_premiums/cli.py:77-79 | a whitespace-only entry names no fiat |
| Cli.CliItemsMembers | src/stablecoin_premiums/cli.py:75-80 | an item comes from the command line iff some entry names it |
| Cli.Candidates | src/stablecoin_premiums/cli.py:75-86 | the command-line items, else the configured defaults, else MXN, never empty |
| Seqs.DedupProperties | src/stablecoin_premiums/cli.py:88-95 | de-duplication keeps every element once, nothing else, in order of first occurrence |
| Seqs.DedupInOrder | src/stablecoin_premiums/cli.py:88-95 | the seen-set loop computes the order-preserving de-duplication |
| Cli.ParseFiats | src/stablecoin_premiums/cli.py:69-95 | non-empty, no duplicates, exactly the candidates, in order of their first occurrence |
| Cli.ParseFiatsLoop | src/stablecoin_premiums/cli.py:69-95 | the loop computes the same list |
| Cli.BlankEntriesFallBack | src/stablecoin_premiums/cli.py:82-86 | blank entries fall back to the de-duplicated defaults, or to ["MXN"] without defaults |
| Cli.Classify | src/stablecoin_premiums/cli.py:120-143 | missing P2P data iff buy or sell is missing; missing FX iff both are present and FX is not; otherwise the outcome of compute_premiums(sell, buy, bid, ask) |
| Cli.RowOf | src/stablecoin_premiums/cli.py:110-143 | the row keeps the base fields; "status" ok with the premium fields iff the outcome is ok, else just the error added |
| Cli.CollectForFiat | src/stablecoin_premiums/cli.py:98-144 | every row has exactly one of a non-empty error and a status |
| Cli.RowRecordsRequest | src/stablecoin_premiums/cli.py:110 | every row records fiat, asset and reference fiat |
| Cli.RowRecordsRates | src/stablecoin_premiums/cli.py:116-118 | every row records both P2P prices (null when missing) and the FX rate |
| Cli.ErrorOrder | src/stablecoin_premiums/cli.py:120-128 | missing P2P data is reported before missing FX data |
| Cli.CollectOkIffPositiveFx | src/stablecoin_premiums/cli.py:130-143 | with positive P2P prices and a rate, ok iff both FX sides are positive; else the first bad side is named |
| Cli.NonPositiveBidRow | src/stablecoin_premiums/cli.py:140-141 | a non-positive bid gives a row error beginning "compute_error: fx_bid must be > 0" |
| Cli.OkRowValues | src/stablecoin_premiums/cli.py:130-139 | an ok row holds the rounded raw metrics under their dict names |
| Cli.RowFor | src/stablecoin_premiums/cli.py:112-118 | a fetched row has exactly one of a non-empty error and a status |
| Cli.NoCredentialsNoRate | src/stablecoin_premiums/cli.py:114-128 | without XE credentials no row is ok |
| Cli.ExitCode | src/stablecoin_premiums/cli.py:282-284 | the code is 0 or 1, and 1 iff some row has a truthy error |
| Cli.ExitCodeIffAllOk | src/stablecoin_premiums/cli.py:282-284 | for well-formed rows the code is 0 iff every row is ok |
| Cli.Run | src/stablecoin_premiums/cli.py:264-284 | one row per parsed fiat in order, at least one row, and code 0 iff every row is ok |

## Left out

- HTTP transport, timeouts, retries, sleeping, logging, `.env` loading, `argparse`, and the JSON/CSV printing of `main`. These are I/O; the network is the `HttpGet` parameter.
- Binance `_fetch_ads`, the paged POST with retries. The ads are an input (`Sources.adsFor` in the CLI).
- Python's `float()` and `int()` on text are parameters. The model does not parse numbers.
- IEEE floating point: NaN, infinities and binary rounding error. Values are exact reals, so `round` acts on the exact value.
- Compute.Message: omits the "; got {v}" suffix of the non-positive error, because it prints a float.
- Compute.Message: the type error ends at the operator; Python's `: 'str' and 'str'` operand-type suffix is omitted.
- Cli.NonPositiveBidRow: the row's error text is the model's message, which stops before the "; got {v}" suffix.
- Rounding.HalfUnitTiesToZero: decimal ties that are not binary floats (0.005, 0.015) are exact ties here but not in Python, where `round` acts on the nearest double.
- Text.Upper: upper-cases ASCII letters only; Python's `str.upper` covers all of Unicode.
- Binance.AveragePrice: sorts the valid prices rather than the ads. Only prices are read after the sort, so the result is the same.
- Binance.AveragePrice: the `except Exception` around the sort and the averaging is not modelled. Valid ads always convert.
- Cli.RowFor: uses the corrected `Xe.FetchFxRate`. A non-dict XE body would otherwise escape `_collect_for_fiat` and end `main`.
- Cli.CollectForFiat: the `not fx` test on a present but empty FX dict is not modelled. `fetch_fx_rate` always returns all three keys.
- Cli.Classify: the `except Exception` of `_collect_for_fiat` is narrowed to the errors `compute_premiums` can raise.
- The module-level `try/except` import fallbacks of the clients are modelled as `ModuleBaseUrl`, that is `PyValues.OrStr` of the package setting and the client's fallback. The environment-variable branch is unreachable inside the package.
- `get_package_info`, `setup_logging` and the package `__init__` are not part of this model.

## Findings

| source | as written | input that shows it | evidently intended | confidence | as-written member | corrected member |
|---|---|---|---|---|---|---|
| src/stablecoin_premiums/clients/xe.py:132-137 | `payload.get` and `row.get` raise AttributeError for a non-dict payload or first row, which the handlers (RequestException, ValueError, TypeError) do not catch | payload `{"to": [null]}` or `[]` | None on any error, as documented | not executed | Xe.NonObjectRowRaises | Xe.FxFromPayload |
| src/stablecoin_premiums/clients/coinapi.py:138-148 | `j.get("rate")` raises AttributeError for a non-dict body, which escapes | body `[]` | None on error, as documented | not executed | CoinApi.NonDictBodyRaises | CoinApi.RateFromResponse |
| src/stablecoin_premiums/clients/coinapi.py:195-207 | `get_symbol_rate` repeats `j.get("rate")` with the same two handlers, so a non-dict body escapes there too | body `[]` from the symbol URL | None on error, as documented | not executed | CoinApi.SymbolListBodyRaises | CoinApi.GetSymbolRate |
| tests/test_compute.py:95-119 | the expected values 10.69364161849711, 9.243697478991614, -1.3184584178498851 and rounded 9.24 (also in the compute module's docstring) | sell 18.95, buy 18.70, FX 17.12 | the formula's values 4575/428, 1975/214, -500/379, rounded 10.69, 9.23, -1.32 | not executed | Examples.DocumentedLiteralsMissTolerance | Examples.FormulaValuesAtDocumentedInputs |
