/** The premium/spread engine: validates four rates, derives two
    percentage premiums against reference FX rates and one buy/sell spread,
    and optionally rounds the three results once at the end. */
module Compute {
  import opened Wrappers
  import opened PyValues
  import Text
  import Rounding

  /** The three percentage metrics (the frozen `Premiums` dataclass). */
  datatype Premiums = Premiums(sellPremium: real, buyPremium: real, buySellSpread: real)

  /** Why `_validate_positive` rejected a value. */
  datatype Problem = IsNone | NotANumber | NotPositive(got: real)

  datatype ComputeError =
    /** The ValueError raised by `_validate_positive`, naming the parameter. */
    | InvalidRate(name: string, problem: Problem)
    /** The TypeError Python raises when a validated operand that is not a
        number (a numeric string) reaches the arithmetic; `op` is the first
        operator applied to it. */
    | UnsupportedOperand(op: string)

  /** The text of the exception (`str(exc)`). */
  function Message(e: ComputeError): string {
    match e
    case InvalidRate(name, IsNone) => name + " must not be None"
    case InvalidRate(name, NotANumber) => name + " must be a number"
    case InvalidRate(name, NotPositive(_)) => name + " must be > 0"
    case UnsupportedOperand(op) => "unsupported operand type(s) for " + op
  }

  /** A Python number: what arithmetic accepts (floats, ints and bools). */
  predicate IsNumber(v: Json) {
    v.JNum? || v.JBool?
  }

  /** The value Python arithmetic sees for a number operand. */
  function Operand(v: Json): (r: Option<real>)
    ensures r.Some? <==> IsNumber(v)
  {
    match v
    case JNum(x) => Some(x)
    case JBool(b) => Some(if b then 1.0 else 0.0)
    case _ => None
  }

  /** `_validate_positive(name, value)`: the value must not be None, must
      convert with `float()`, and must be > 0; the converted value is
      returned on success. */
  function ValidatePositive(name: string, value: Json, parse: FloatParser): (r: Result<real, ComputeError>)
    ensures r.Success? <==> value != JNull && ToFloat(value, parse).Some? && ToFloat(value, parse).value > 0.0
    ensures r.Success? ==> r.value > 0.0 && ToFloat(value, parse) == Some(r.value)
    ensures r.Failure? ==> r.error.InvalidRate? && r.error.name == name
    ensures r.Failure? ==> Text.StartsWith(Message(r.error), name + " must ")
    ensures value == JNull ==> r == Failure(InvalidRate(name, IsNone))
    ensures value.JNum? && value.n <= 0.0 ==> r == Failure(InvalidRate(name, NotPositive(value.n)))
  {
    if value == JNull then Failure(InvalidRate(name, IsNone))
    else match ToFloat(value, parse)
      case None => Failure(InvalidRate(name, NotANumber))
      case Some(v) => if v <= 0.0 then Failure(InvalidRate(name, NotPositive(v))) else Success(v)
  }

  /** The premium formula `((n / d) - 1) * 100`. */
  function PremiumValue(n: real, d: real): real
    requires d > 0.0
  {
    (n / d - 1.0) * 100.0
  }

  /** The spread formula `((buy - sell) / sell) * 100`. */
  function SpreadValue(buy: real, sell: real): real
    requires sell > 0.0
  {
    ((buy - sell) / sell) * 100.0
  }

  /** A premium is positive exactly when the observed rate exceeds the
      reference, zero when they agree, and never reaches -100% for a
      positive observed rate. */
  lemma PremiumSign(n: real, d: real)
    requires d > 0.0
    ensures PremiumValue(n, d) > 0.0 <==> n > d
    ensures PremiumValue(n, d) == 0.0 <==> n == d
    ensures PremiumValue(n, d) < 0.0 <==> n < d
    ensures n > 0.0 ==> PremiumValue(n, d) > -100.0
  {
    assert PremiumValue(n, d) == (n - d) / d * 100.0;
    if n > d {
      assert (n - d) / d > 0.0;
    } else if n < d {
      assert (n - d) / d < 0.0;
    }
    if n > 0.0 {
      assert n / d > 0.0;
    }
  }

  /** The premium determines the observed rate: it is the reference
      scaled by `1 + premium/100`. */
  lemma PremiumInverse(n: real, d: real)
    requires d > 0.0
    ensures n == d * (1.0 + PremiumValue(n, d) / 100.0)
  {
    assert 1.0 + PremiumValue(n, d) / 100.0 == n / d;
  }

  /** The spread has the sign of `buy - sell` and stays above -100% for a
      positive buy rate. */
  lemma SpreadSign(buy: real, sell: real)
    requires sell > 0.0
    ensures SpreadValue(buy, sell) > 0.0 <==> buy > sell
    ensures SpreadValue(buy, sell) == 0.0 <==> buy == sell
    ensures SpreadValue(buy, sell) < 0.0 <==> buy < sell
    ensures buy > 0.0 ==> SpreadValue(buy, sell) > -100.0
  {
    if buy > sell {
      assert (buy - sell) / sell > 0.0;
    } else if buy < sell {
      assert (buy - sell) / sell < 0.0;
    }
    if buy > 0.0 {
      RelativeDifference(buy, sell);
      assert buy / sell > 0.0;
    }
  }

  /** The spread determines the buy rate: it is the sell rate scaled by
      `1 + spread/100`; and it is the premium of buy over sell. */
  lemma SpreadInverse(buy: real, sell: real)
    requires sell > 0.0
    ensures buy == sell * (1.0 + SpreadValue(buy, sell) / 100.0)
    ensures SpreadValue(buy, sell) == PremiumValue(buy, sell)
  {
    RelativeDifference(buy, sell);
  }

  lemma RelativeDifference(a: real, b: real)
    requires b > 0.0
    ensures (a - b) / b == a / b - 1.0
  {
    assert b / b == 1.0;
    assert (a - b) / b == a / b - b / b;
  }

  /** `compute_premium(numerator_rate, denominator_rate)`. */
  function ComputePremium(num: Json, den: Json, parse: FloatParser): (r: Result<real, ComputeError>)
    ensures ValidatePositive("numerator_rate", num, parse).Failure? ==>
      r == Failure(ValidatePositive("numerator_rate", num, parse).error)
    ensures (ValidatePositive("numerator_rate", num, parse).Success?
      && ValidatePositive("denominator_rate", den, parse).Failure?) ==>
      r == Failure(ValidatePositive("denominator_rate", den, parse).error)
    ensures num.JNum? && den.JNum? && num.n > 0.0 && den.n > 0.0 ==>
      r == Success(PremiumValue(num.n, den.n))
    ensures r.Success? ==> r.value > -100.0
    ensures r.Success? ==> IsNumber(num) && IsNumber(den)
    ensures (ValidatePositive("numerator_rate", num, parse).Success?
      && ValidatePositive("denominator_rate", den, parse).Success?
      && !(IsNumber(num) && IsNumber(den))) ==> r == Failure(UnsupportedOperand("/"))
    ensures r.Success? ==> (r.value > 0.0 <==> Operand(num).value > Operand(den).value)
  {
    match ValidatePositive("numerator_rate", num, parse)
    case Failure(e) => Failure(e)
    case Success(_) =>
      match ValidatePositive("denominator_rate", den, parse)
      case Failure(e) => Failure(e)
      case Success(_) =>
        if IsNumber(num) && IsNumber(den) then
          var n := Operand(num).value;
          var d := Operand(den).value;
          PremiumSign(n, d);
          Success(PremiumValue(n, d))
        else Failure(UnsupportedOperand("/"))
  }

  /** `compute_spread(buy_rate, sell_rate)`. */
  function ComputeSpread(buy: Json, sell: Json, parse: FloatParser): (r: Result<real, ComputeError>)
    ensures ValidatePositive("buy_rate", buy, parse).Failure? ==>
      r == Failure(ValidatePositive("buy_rate", buy, parse).error)
    ensures (ValidatePositive("buy_rate", buy, parse).Success?
      && ValidatePositive("sell_rate", sell, parse).Failure?) ==>
      r == Failure(ValidatePositive("sell_rate", sell, parse).error)
    ensures buy.JNum? && sell.JNum? && buy.n > 0.0 && sell.n > 0.0 ==>
      r == Success(SpreadValue(buy.n, sell.n))
    ensures r.Success? ==> r.value > -100.0
    ensures r.Success? ==> IsNumber(buy) && IsNumber(sell)
    ensures (ValidatePositive("buy_rate", buy, parse).Success?
      && ValidatePositive("sell_rate", sell, parse).Success?
      && !(IsNumber(buy) && IsNumber(sell))) ==> r == Failure(UnsupportedOperand("-"))
    ensures r.Success? ==> (r.value < 0.0 <==> Operand(buy).value < Operand(sell).value)
  {
    match ValidatePositive("buy_rate", buy, parse)
    case Failure(e) => Failure(e)
    case Success(_) =>
      match ValidatePositive("sell_rate", sell, parse)
      case Failure(e) => Failure(e)
      case Success(_) =>
        if IsNumber(buy) && IsNumber(sell) then
          var b := Operand(buy).value;
          var s := Operand(sell).value;
          SpreadSign(b, s);
          Success(SpreadValue(b, s))
        else Failure(UnsupportedOperand("-"))
  }

  /** `_maybe_round(value, decimals)`. */
  function MaybeRound(value: real, decimals: Option<int>): (r: real)
    ensures decimals.None? ==> r == value
    ensures decimals.Some? ==>
      value - Rounding.HalfUnit(decimals.value) <= r <= value + Rounding.HalfUnit(decimals.value)
  {
    match decimals
    case None => value
    case Some(d) =>
      Rounding.RoundingError(value, d);
      Rounding.RoundHalfEven(value, d)
  }

  /** The three metrics of four positive rates, before rounding. */
  function RawPremiums(sell: real, buy: real, fxBid: real, fxAsk: real): Premiums
    requires sell > 0.0 && buy > 0.0 && fxBid > 0.0 && fxAsk > 0.0
  {
    Premiums(PremiumValue(sell, fxBid), PremiumValue(buy, fxAsk), SpreadValue(buy, sell))
  }

  /** The same rounding applied to each of the three metrics. */
  function RoundAll(p: Premiums, decimals: Option<int>): Premiums {
    Premiums(MaybeRound(p.sellPremium, decimals), MaybeRound(p.buyPremium, decimals),
             MaybeRound(p.buySellSpread, decimals))
  }

  /** `compute_premiums(sell_rate=…, buy_rate=…, fx_bid=…, fx_ask=…, decimals=…)`:
      the first invalid rate, in the order sell_rate, buy_rate, fx_bid,
      fx_ask, is the error; with four valid numbers the result is the three
      raw metrics, each rounded the same way once all three exist. */
  function ComputePremiums(sell: Json, buy: Json, fxBid: Json, fxAsk: Json,
                           decimals: Option<int>, parse: FloatParser): (r: Result<Premiums, ComputeError>)
    ensures ValidatePositive("sell_rate", sell, parse).Failure? ==>
      r == Failure(ValidatePositive("sell_rate", sell, parse).error)
    ensures (ValidatePositive("sell_rate", sell, parse).Success?
      && ValidatePositive("buy_rate", buy, parse).Failure?) ==>
      r == Failure(ValidatePositive("buy_rate", buy, parse).error)
    ensures (ValidatePositive("sell_rate", sell, parse).Success?
      && ValidatePositive("buy_rate", buy, parse).Success?
      && ValidatePositive("fx_bid", fxBid, parse).Failure?) ==>
      r == Failure(ValidatePositive("fx_bid", fxBid, parse).error)
    ensures (ValidatePositive("sell_rate", sell, parse).Success?
      && ValidatePositive("buy_rate", buy, parse).Success?
      && ValidatePositive("fx_bid", fxBid, parse).Success?
      && ValidatePositive("fx_ask", fxAsk, parse).Failure?) ==>
      r == Failure(ValidatePositive("fx_ask", fxAsk, parse).error)
    ensures r.Success? <==>
      && IsNumber(sell) && IsNumber(buy) && IsNumber(fxBid) && IsNumber(fxAsk)
      && Operand(sell).value > 0.0 && Operand(buy).value > 0.0
      && Operand(fxBid).value > 0.0 && Operand(fxAsk).value > 0.0
    ensures r.Success? ==>
      r.value == RoundAll(RawPremiums(Operand(sell).value, Operand(buy).value,
                                      Operand(fxBid).value, Operand(fxAsk).value), decimals)
  {
    match ValidatePositive("sell_rate", sell, parse)
    case Failure(e) => Failure(e)
    case Success(_) =>
      match ValidatePositive("buy_rate", buy, parse)
      case Failure(e) => Failure(e)
      case Success(_) =>
        match ValidatePositive("fx_bid", fxBid, parse)
        case Failure(e) => Failure(e)
        case Success(_) =>
          match ValidatePositive("fx_ask", fxAsk, parse)
          case Failure(e) => Failure(e)
          case Success(_) =>
            match ComputePremium(sell, fxBid, parse)
            case Failure(e) => Failure(e)
            case Success(sellPremium) =>
              match ComputePremium(buy, fxAsk, parse)
              case Failure(e) => Failure(e)
              case Success(buyPremium) =>
                match ComputeSpread(buy, sell, parse)
                case Failure(e) => Failure(e)
                case Success(spread) =>
                  Success(RoundAll(Premiums(sellPremium, buyPremium, spread), decimals))
  }

  /** Once the four rates are positive numbers, neither the inner
      `compute_premium`/`compute_spread` calls nor anything else can fail,
      and without `decimals` the fields are the unrounded formulas. */
  lemma ValidNumbersNeverFail(sell: real, buy: real, fxBid: real, fxAsk: real, parse: FloatParser)
    requires sell > 0.0 && buy > 0.0 && fxBid > 0.0 && fxAsk > 0.0
    ensures ComputePremiums(JNum(sell), JNum(buy), JNum(fxBid), JNum(fxAsk), None, parse)
      == Success(Premiums(PremiumValue(sell, fxBid), PremiumValue(buy, fxAsk), SpreadValue(buy, sell)))
    ensures ComputePremium(JNum(sell), JNum(fxBid), parse) == Success(PremiumValue(sell, fxBid))
    ensures ComputeSpread(JNum(buy), JNum(sell), parse) == Success(SpreadValue(buy, sell))
  {
  }

  /** With `decimals`, every field lies within half a unit of its raw value
      and keeps its sign; each field is rounded independently of the others. */
  lemma RoundedFieldsNearRaw(sell: real, buy: real, fxBid: real, fxAsk: real, d: int, parse: FloatParser)
    requires sell > 0.0 && buy > 0.0 && fxBid > 0.0 && fxAsk > 0.0
    ensures var raw := RawPremiums(sell, buy, fxBid, fxAsk);
      var r := ComputePremiums(JNum(sell), JNum(buy), JNum(fxBid), JNum(fxAsk), Some(d), parse);
      && r.Success?
      && raw.sellPremium - Rounding.HalfUnit(d) <= r.value.sellPremium <= raw.sellPremium + Rounding.HalfUnit(d)
      && raw.buyPremium - Rounding.HalfUnit(d) <= r.value.buyPremium <= raw.buyPremium + Rounding.HalfUnit(d)
      && raw.buySellSpread - Rounding.HalfUnit(d) <= r.value.buySellSpread <= raw.buySellSpread + Rounding.HalfUnit(d)
      && (raw.sellPremium >= 0.0 ==> r.value.sellPremium >= 0.0)
      && (raw.buySellSpread <= 0.0 ==> r.value.buySellSpread <= 0.0)
      && r.value.sellPremium == Rounding.RoundHalfEven(raw.sellPremium, d)
      && r.value.buyPremium == Rounding.RoundHalfEven(raw.buyPremium, d)
      && r.value.buySellSpread == Rounding.RoundHalfEven(raw.buySellSpread, d)
  {
    var raw := RawPremiums(sell, buy, fxBid, fxAsk);
    Rounding.RoundKeepsSign(raw.sellPremium, d);
    Rounding.RoundKeepsSign(raw.buySellSpread, d);
  }

  /** `Premiums.to_dict()`: the three field names mapped to the field values. */
  function ToDict(p: Premiums): (m: map<string, real>)
    ensures m.Keys == {"stablecoin_sell_premium", "stablecoin_buy_premium", "stablecoin_buy_sell_spread"}
    ensures m["stablecoin_sell_premium"] == p.sellPremium
    ensures m["stablecoin_buy_premium"] == p.buyPremium
    ensures m["stablecoin_buy_sell_spread"] == p.buySellSpread
  {
    map["stablecoin_sell_premium" := p.sellPremium,
        "stablecoin_buy_premium" := p.buyPremium,
        "stablecoin_buy_sell_spread" := p.buySellSpread]
  }

  /** Reads a premiums record back from its dict form (`Premiums(**d)`). */
  function FromDict(m: map<string, real>): Option<Premiums> {
    if "stablecoin_sell_premium" in m && "stablecoin_buy_premium" in m && "stablecoin_buy_sell_spread" in m
    then Some(Premiums(m["stablecoin_sell_premium"], m["stablecoin_buy_premium"], m["stablecoin_buy_sell_spread"]))
    else None
  }

  /** The dict form loses nothing and has exactly three entries. */
  lemma ToDictRoundTrip(p: Premiums)
    ensures FromDict(ToDict(p)) == Some(p)
    ensures |ToDict(p)| == 3
  {
    assert |ToDict(p).Keys| == 3;
  }
}
