/** Environment-based configuration: the `get_env`, `get_int`, `get_float`,
    `parse_list` and `require` helpers, the settings the package reads at
    import time, and `asdict`. The process environment is a map parameter. */
module Config {
  import opened Wrappers
  import opened PyValues
  import opened Text

  /** The process environment (`os.environ`). */
  type Env = map<string, string>

  const DefaultXeBaseUrl: string := "https://xecdapi.xe.com"
  const DefaultCoinApiBaseUrl: string := "https://rest.coinapi.io"
  const DefaultEldoradoBaseUrl: string := "https://api.eldorado.io/api"
  const DefaultRequestTimeout: real := 15.0
  const DefaultMaxRetries: int := 3
  const DefaultRetrySleep: real := 5.0
  const DefaultAssetCode: string := "USDT"
  const DefaultRefFiat: string := "USD"
  const DefaultLogLevel: string := "INFO"

  /** `get_env(name, default)`: an unset or empty variable gives the
      default; any other value, whitespace-only included, is returned. */
  function GetEnv(env: Env, name: string, default: Option<string>): (r: Option<string>)
    ensures r == Some("") ==> default == Some("")
    ensures r != default ==> name in env && r == Some(env[name])
    ensures name in env && env[name] != "" ==> r == Some(env[name])
  {
    var v := Get(env, name);
    if v.None? || v.value == "" then default else v
  }

  /** A whitespace-only value is not treated as unset. */
  lemma GetEnvKeepsWhitespace(env: Env, name: string, default: Option<string>)
    requires name in env && env[name] != [] && IsBlank(env[name])
    ensures GetEnv(env, name, default) == Some(env[name])
    ensures Strip(GetEnv(env, name, default).value) == []
  {
    StripEmptyIffBlank(env[name]);
  }

  /** The shared shape of `get_int` and `get_float`: an unset or blank
      variable, or one that does not parse, gives the default. */
  function GetParsed<T>(env: Env, name: string, default: T, parse: string -> Option<T>): (r: T)
    ensures name !in env || IsBlank(env[name]) ==> r == default
    ensures name in env && !IsBlank(env[name]) && parse(env[name]).None? ==> r == default
    ensures name in env && !IsBlank(env[name]) && parse(env[name]).Some? ==> r == parse(env[name]).value
  {
    var raw := Get(env, name);
    if raw.None? then default
    else
      StripEmptyIffBlank(raw.value);
      if Strip(raw.value) == [] then default
      else
        var v := parse(raw.value);
        if v.None? then default else v.value
  }

  /** `get_int(name, default)`. */
  function GetInt(env: Env, name: string, default: int, parseInt: IntParser): int {
    GetParsed(env, name, default, parseInt)
  }

  /** `get_float(name, default)`. */
  function GetFloat(env: Env, name: string, default: real, parseFloat: FloatParser): real {
    GetParsed(env, name, default, parseFloat)
  }

  /** `parse_list(name, default)`: an unset or blank variable gives
      `default or []`; otherwise the comma-separated items, stripped, with
      empty items dropped. */
  function ParseList(env: Env, name: string, default: Option<seq<string>>): (r: seq<string>)
    ensures name !in env || IsBlank(env[name]) ==> r == default.GetOr([])
    ensures name in env && !IsBlank(env[name]) ==>
      forall i :: 0 <= i < |r| ==> r[i] != [] && Trimmed(r[i]) && ',' !in r[i]
    ensures name in env && !IsBlank(env[name]) ==>
      forall x :: x in r <==> x != [] && x in StripEach(Split(env[name], ','))
    ensures name in env && !IsBlank(env[name]) ==> r == StripNonEmpty(Split(env[name], ','))
  {
    var raw := Get(env, name);
    if raw.None? then default.GetOr([])
    else
      StripEmptyIffBlank(raw.value);
      if Strip(raw.value) == [] then default.GetOr([])
      else
        var parts := Split(raw.value, ',');
        StripNonEmptyKeepsOut(parts, ',');
        StripNonEmptyMembers(parts);
        StripNonEmpty(parts)
  }

  /** Joining clean items with commas and parsing the list gives them back. */
  lemma ParseListJoin(env: Env, name: string, default: Option<seq<string>>, items: seq<string>)
    requires |items| >= 1
    requires forall i :: 0 <= i < |items| ==> items[i] != [] && Trimmed(items[i]) && ',' !in items[i]
    requires name in env && env[name] == Join(items, ',')
    ensures ParseList(env, name, default) == items
  {
    var raw := env[name];
    assert Strip(raw) != [] by {
      assert raw[0] == items[0][0];
      StripEmptyIffBlank(raw);
    }
    assert Split(raw, ',') == items by {
      SplitJoin(items, ',');
    }
    StripNonEmptyKeepsClean(items);
  }

  /** `require(var_name, value)`: the value itself, or a ValueError naming
      the variable when it is None or empty. */
  function Require(varName: string, value: Option<string>): (r: Result<string, PyError>)
    ensures r.Success? <==> value.Some? && value.value != ""
    ensures r.Success? ==> r.value == value.value
    ensures r.Failure? ==> r.error.ValueError? && r.error.message == "Missing required environment variable: " + varName
  {
    if value.None? || value.value == "" then Failure(ValueError("Missing required environment variable: " + varName))
    else Success(value.value)
  }

  /** Requiring a variable read with `get_env` succeeds exactly when it is
      set and non-empty, and then gives its value. */
  lemma RequireEnv(env: Env, name: string)
    ensures Require(name, GetEnv(env, name, None)).Success? <==> name in env && env[name] != ""
    ensures name in env && env[name] != "" ==> Require(name, GetEnv(env, name, None)).value == env[name]
  {
  }

  /** `get_env(name, d) or d`. */
  function EnvOr(env: Env, name: string, d: string): (r: string)
    requires d != ""
    ensures r != ""
    ensures r == d || (name in env && r == env[name])
    ensures name in env && env[name] != "" ==> r == env[name]
  {
    var v := GetEnv(env, name, Some(d));
    if v.Some? && v.value != "" then v.value else d
  }

  /** The module-level settings. */
  datatype Settings = Settings(
    xeAccountId: Option<string>,
    xeKey: Option<string>,
    xeBaseUrl: string,
    coinApiKey: Option<string>,
    coinApiBaseUrl: string,
    eldoradoBaseUrl: string,
    requestTimeout: real,
    maxRetries: int,
    retrySleep: real,
    defaultAsset: string,
    refFiat: string,
    defaultFiats: seq<string>,
    logLevel: string)

  /** A string setting read with `get_env(name, d) or d`: the variable's
      value when it is set and non-empty, the default otherwise. */
  predicate ValueOrDefault(env: Env, name: string, v: string, d: string) {
    if name in env && env[name] != "" then v == env[name] else v == d
  }

  /** An optional setting read with `get_env(name)`: the variable's value
      when it is set and non-empty, None otherwise. */
  predicate ValueOrNone(env: Env, name: string, v: Option<string>) {
    v == if name in env && env[name] != "" then Some(env[name]) else None
  }

  /** The settings read from an environment. */
  function Load(env: Env, parseInt: IntParser, parseFloat: FloatParser): (c: Settings)
    ensures c.xeBaseUrl != "" && c.coinApiBaseUrl != "" && c.eldoradoBaseUrl != ""
    ensures c.defaultAsset != "" && c.refFiat != "" && c.logLevel != ""
    ensures Upper(c.logLevel) == c.logLevel
    ensures c.xeAccountId != Some("") && c.xeKey != Some("") && c.coinApiKey != Some("")
    ensures "XE_API_BASE_URL" !in env ==> c.xeBaseUrl == DefaultXeBaseUrl
    ensures "COINAPI_BASE_URL" !in env ==> c.coinApiBaseUrl == DefaultCoinApiBaseUrl
    ensures "ELDORADO_API_BASE_URL" !in env ==> c.eldoradoBaseUrl == DefaultEldoradoBaseUrl
    ensures "DEFAULT_ASSET" !in env ==> c.defaultAsset == DefaultAssetCode
    ensures "REF_FIAT" !in env ==> c.refFiat == DefaultRefFiat
    ensures "LOG_LEVEL" !in env ==> c.logLevel == DefaultLogLevel
    ensures "REQUEST_TIMEOUT" !in env ==> c.requestTimeout == DefaultRequestTimeout
    ensures "MAX_RETRIES" !in env ==> c.maxRetries == DefaultMaxRetries
    ensures "RETRY_SLEEP" !in env ==> c.retrySleep == DefaultRetrySleep
    ensures "DEFAULT_FIATS" !in env ==> c.defaultFiats == []
    ensures forall i :: 0 <= i < |c.defaultFiats| ==> c.defaultFiats[i] != "" && Trimmed(c.defaultFiats[i])
    ensures ValueOrNone(env, "XE_API_ACCOUNT_ID", c.xeAccountId)
    ensures ValueOrNone(env, "XE_API_KEY", c.xeKey)
    ensures ValueOrNone(env, "COINAPI_KEY", c.coinApiKey)
    ensures ValueOrDefault(env, "XE_API_BASE_URL", c.xeBaseUrl, DefaultXeBaseUrl)
    ensures ValueOrDefault(env, "COINAPI_BASE_URL", c.coinApiBaseUrl, DefaultCoinApiBaseUrl)
    ensures ValueOrDefault(env, "ELDORADO_API_BASE_URL", c.eldoradoBaseUrl, DefaultEldoradoBaseUrl)
    ensures ValueOrDefault(env, "DEFAULT_ASSET", c.defaultAsset, DefaultAssetCode)
    ensures ValueOrDefault(env, "REF_FIAT", c.refFiat, DefaultRefFiat)
    ensures exists level :: ValueOrDefault(env, "LOG_LEVEL", level, DefaultLogLevel) && c.logLevel == Upper(level)
    ensures c.requestTimeout == GetParsed(env, "REQUEST_TIMEOUT", DefaultRequestTimeout, parseFloat)
    ensures c.maxRetries == GetParsed(env, "MAX_RETRIES", DefaultMaxRetries, parseInt)
    ensures c.retrySleep == GetParsed(env, "RETRY_SLEEP", DefaultRetrySleep, parseFloat)
    ensures c.defaultFiats == ParseList(env, "DEFAULT_FIATS", Some([]))
  {
    var level := EnvOr(env, "LOG_LEVEL", DefaultLogLevel);
    UpperIdempotent(level);
    Settings(
      GetEnv(env, "XE_API_ACCOUNT_ID", None),
      GetEnv(env, "XE_API_KEY", None),
      EnvOr(env, "XE_API_BASE_URL", DefaultXeBaseUrl),
      GetEnv(env, "COINAPI_KEY", None),
      EnvOr(env, "COINAPI_BASE_URL", DefaultCoinApiBaseUrl),
      EnvOr(env, "ELDORADO_API_BASE_URL", DefaultEldoradoBaseUrl),
      GetFloat(env, "REQUEST_TIMEOUT", DefaultRequestTimeout, parseFloat),
      GetInt(env, "MAX_RETRIES", DefaultMaxRetries, parseInt),
      GetFloat(env, "RETRY_SLEEP", DefaultRetrySleep, parseFloat),
      EnvOr(env, "DEFAULT_ASSET", DefaultAssetCode),
      EnvOr(env, "REF_FIAT", DefaultRefFiat),
      ParseList(env, "DEFAULT_FIATS", Some([])),
      Upper(level))
  }

  /** With nothing set, every setting is its default. */
  lemma LoadEmptyEnv(parseInt: IntParser, parseFloat: FloatParser)
    ensures Load(map[], parseInt, parseFloat)
         == Settings(None, None, "https://xecdapi.xe.com", None, "https://rest.coinapi.io",
                     "https://api.eldorado.io/api", 15.0, 3, 5.0, "USDT", "USD", [], "INFO")
  {
    assert Upper("INFO") == "INFO";
  }

  /** The keys of `asdict()`. */
  const SettingKeys: set<string> := {
    "XE_API_ACCOUNT_ID", "XE_API_KEY", "XE_API_BASE_URL",
    "COINAPI_KEY", "COINAPI_BASE_URL", "ELDORADO_API_BASE_URL",
    "REQUEST_TIMEOUT", "MAX_RETRIES", "RETRY_SLEEP",
    "DEFAULT_ASSET", "REF_FIAT", "DEFAULT_FIATS", "LOG_LEVEL"}

  function OptStr(s: Option<string>): Json {
    if s.Some? then JStr(s.value) else JNull
  }

  function StrList(items: seq<string>): (r: Json)
    ensures r.JArr? && |r.items| == |items|
    ensures forall i :: 0 <= i < |items| ==> r.items[i] == JStr(items[i])
  {
    JArr(seq(|items|, i requires 0 <= i < |items| => JStr(items[i])))
  }

  /** `asdict()`: every setting under its variable name. */
  function AsDict(c: Settings): (d: map<string, Json>)
    ensures d.Keys == SettingKeys
  {
    map[
      "XE_API_ACCOUNT_ID" := OptStr(c.xeAccountId),
      "XE_API_KEY" := OptStr(c.xeKey),
      "XE_API_BASE_URL" := JStr(c.xeBaseUrl),
      "COINAPI_KEY" := OptStr(c.coinApiKey),
      "COINAPI_BASE_URL" := JStr(c.coinApiBaseUrl),
      "ELDORADO_API_BASE_URL" := JStr(c.eldoradoBaseUrl),
      "REQUEST_TIMEOUT" := JNum(c.requestTimeout),
      "MAX_RETRIES" := JNum(c.maxRetries as real),
      "RETRY_SLEEP" := JNum(c.retrySleep),
      "DEFAULT_ASSET" := JStr(c.defaultAsset),
      "REF_FIAT" := JStr(c.refFiat),
      "DEFAULT_FIATS" := StrList(c.defaultFiats),
      "LOG_LEVEL" := JStr(c.logLevel)]
  }

  function ReadOptStr(v: Json): Option<Option<string>> {
    match v
    case JNull => Some(None)
    case JStr(s) => Some(Some(s))
    case _ => None
  }

  function ReadStr(v: Json): Option<string> {
    if v.JStr? then Some(v.s) else None
  }

  function ReadNum(v: Json): Option<real> {
    if v.JNum? then Some(v.n) else None
  }

  function ReadStrList(v: Json): Option<seq<string>> {
    if v.JArr? && forall i :: 0 <= i < |v.items| ==> v.items[i].JStr? then
      Some(seq(|v.items|, i requires 0 <= i < |v.items| && v.items[i].JStr? => v.items[i].s))
    else None
  }

  lemma StrListRoundTrip(items: seq<string>)
    ensures ReadStrList(StrList(items)) == Some(items)
  {
    var v := StrList(items);
    assert forall i :: 0 <= i < |v.items| ==> v.items[i].JStr?;
    var back := ReadStrList(v).value;
    assert |back| == |items|;
    forall i | 0 <= i < |items| ensures back[i] == items[i] {
      assert v.items[i] == JStr(items[i]);
    }
    assert back == items;
  }

  /** Reads the settings back from an `asdict()` dictionary. */
  function FromDict(d: map<string, Json>): Option<Settings> {
    if !(SettingKeys <= d.Keys) then None
    else
      var xeId := ReadOptStr(d["XE_API_ACCOUNT_ID"]);
      var xeKey := ReadOptStr(d["XE_API_KEY"]);
      var xeUrl := ReadStr(d["XE_API_BASE_URL"]);
      var caKey := ReadOptStr(d["COINAPI_KEY"]);
      var caUrl := ReadStr(d["COINAPI_BASE_URL"]);
      var elUrl := ReadStr(d["ELDORADO_API_BASE_URL"]);
      var timeout := ReadNum(d["REQUEST_TIMEOUT"]);
      var retries := ReadNum(d["MAX_RETRIES"]);
      var sleep := ReadNum(d["RETRY_SLEEP"]);
      var asset := ReadStr(d["DEFAULT_ASSET"]);
      var ref := ReadStr(d["REF_FIAT"]);
      var fiats := ReadStrList(d["DEFAULT_FIATS"]);
      var level := ReadStr(d["LOG_LEVEL"]);
      if xeId.None? || xeKey.None? || xeUrl.None? || caKey.None? || caUrl.None? || elUrl.None?
         || timeout.None? || retries.None? || sleep.None? || asset.None? || ref.None?
         || fiats.None? || level.None? then None
      else
        Some(Settings(xeId.value, xeKey.value, xeUrl.value, caKey.value, caUrl.value, elUrl.value,
                      timeout.value, retries.value.Floor, sleep.value, asset.value, ref.value,
                      fiats.value, level.value))
  }

  /** `asdict()` loses nothing: every setting can be read back. */
  lemma AsDictRoundTrip(c: Settings)
    ensures FromDict(AsDict(c)) == Some(c)
  {
    var d := AsDict(c);
    StrListRoundTrip(c.defaultFiats);
    assert d["DEFAULT_FIATS"] == StrList(c.defaultFiats);
    assert (c.maxRetries as real).Floor == c.maxRetries;
  }
}
