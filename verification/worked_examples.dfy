/** The worked example of the compute module's documentation and its test
    suite: sell 18.95, buy 18.70, FX bid and ask 17.12. */
module Examples {
  import opened Wrappers
  import opened PyValues
  import opened Compute
  import Rounding

  /** `pytest.approx(expected)` with its default tolerances: relative
      1e-6, absolute 1e-12. */
  predicate Approx(actual: real, expected: real) {
    var tolerance := if 0.000001 * Abs(expected) > 0.000000000001 then 0.000001 * Abs(expected) else 0.000000000001;
    Abs(actual - expected) <= tolerance
  }

  function Abs(x: real): real {
    if x < 0.0 then -x else x
  }

  function Documented(decimals: Option<int>, parse: FloatParser): Result<Premiums, ComputeError> {
    ComputePremiums(JNum(18.95), JNum(18.70), JNum(17.12), JNum(17.12), decimals, parse)
  }

  /** The formula at the documented inputs, in exact arithmetic, unrounded
      and rounded to two decimals. */
  lemma FormulaValuesAtDocumentedInputs(parse: FloatParser)
    ensures Documented(None, parse) == Success(Premiums(4575.0 / 428.0, 1975.0 / 214.0, -500.0 / 379.0))
    ensures Documented(Some(2), parse) == Success(Premiums(10.69, 9.23, -1.32))
  {
    ValidNumbersNeverFail(18.95, 18.70, 17.12, 17.12, parse);
    assert PremiumValue(18.95, 17.12) == 4575.0 / 428.0;
    assert PremiumValue(18.70, 17.12) == 1975.0 / 214.0;
    assert SpreadValue(18.70, 18.95) == -500.0 / 379.0;
    assert Rounding.Pow10(2) == 100.0;
    RoundsTo(4575.0 / 428.0, 1069);
    RoundsTo(1975.0 / 214.0, 923);
    RoundsTo(-500.0 / 379.0, -132);
  }

  lemma RoundsTo(x: real, n: int)
    requires n as real - 0.5 < x * 100.0 < n as real + 0.5
    ensures Rounding.RoundHalfEven(x, 2) == n as real / 100.0
  {
    assert Rounding.Pow10(2) == 100.0;
    var s := x * 100.0;
    if s < n as real {
      assert s.Floor == n - 1;
    } else {
      assert s.Floor == n;
    }
  }

  /** The literals printed in the module documentation and asserted by the
      tests are not what the formula gives at those inputs: none of the three
      is within pytest's default tolerance, and the rounded buy premium is
      9.23, not 9.24. */
  lemma DocumentedLiteralsMissTolerance(parse: FloatParser)
    ensures Documented(None, parse).Success?
    ensures !Approx(Documented(None, parse).value.sellPremium, 10.69364161849711)
    ensures !Approx(Documented(None, parse).value.buyPremium, 9.243697478991614)
    ensures !Approx(Documented(None, parse).value.buySellSpread, -1.3184584178498851)
    ensures Documented(Some(2), parse).Success?
    ensures !Approx(Documented(Some(2), parse).value.buyPremium, 9.24)
  {
    FormulaValuesAtDocumentedInputs(parse);
  }
}
