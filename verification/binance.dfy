/** The decision logic of the Binance P2P client: which advertisements are
    valid, and the trimmed average price of the cheapest valid ones. The
    ads are an input (the HTTP fetch is not modelled). */
module Binance {
  import opened Wrappers
  import opened PyValues
  import opened Seqs

  /** `adv.get("minSingleTransAmount", 0)`. */
  const DefaultMinAmount: real := 0.0
  /** `adv.get("maxSingleTransAmount", 1e18)`. */
  const DefaultMaxAmount: real := 1000000000000000000.0
  /** Defaults of `average_price`. */
  const DefaultTakeTop: int := 5
  const DefaultAverageLastN: int := 3

  function Max(a: int, b: int): int {
    if a >= b then a else b
  }

  /** The "adv" object of an ad as the code indexes it: `ad.get("adv", {})`
      on a dict, or None where that or the following `adv["price"]` raises
      (the ad is not a dict, or "adv" is present but not a dict). */
  function AdvFields(ad: Json): Option<map<string, Json>> {
    match ad
    case JObj(m) =>
      if "adv" !in m then Some(map[])
      else if m["adv"].JObj? then Some(m["adv"].fields)
      else None
    case _ => None
  }

  /** `float(adv["price"])`, None where it raises. */
  function AdPrice(ad: Json, parse: FloatParser): Option<real> {
    match AdvFields(ad)
    case None => None
    case Some(adv) => if "price" in adv then ToFloat(adv["price"], parse) else None
  }

  /** `float(adv.get(key, default))`, None where it raises. */
  function Amount(ad: Json, key: string, default: real, parse: FloatParser): Option<real> {
    match AdvFields(ad)
    case None => None
    case Some(adv) => if key in adv then ToFloat(adv[key], parse) else Some(default)
  }

  /** `_valid_ad(ad)`: every conversion succeeds, the price is positive and
      the trade limits are sensible. Any exception makes the ad invalid. */
  predicate ValidAd(ad: Json, parse: FloatParser) {
    var price := AdPrice(ad, parse);
    var lo := Amount(ad, "minSingleTransAmount", DefaultMinAmount, parse);
    var hi := Amount(ad, "maxSingleTransAmount", DefaultMaxAmount, parse);
    && price.Some? && lo.Some? && hi.Some?
    && price.value > 0.0
    && lo.value >= 0.0 && hi.value > 0.0
    && lo.value <= hi.value
  }

  /** An ad as Binance sends it: `{"adv": {"price": p, …limits}}`; an
      absent limit is left out of the object. */
  function MakeAd(price: Json, minAmount: Option<Json>, maxAmount: Option<Json>): Json {
    var withMin := if minAmount.Some? then map["minSingleTransAmount" := minAmount.value] else map[];
    var withMax := if maxAmount.Some? then withMin["maxSingleTransAmount" := maxAmount.value] else withMin;
    JObj(map["adv" := JObj(withMax["price" := price])])
  }

  /** An ad is valid exactly when its price is positive, its minimum
      (default 0) is non-negative, its maximum (default 1e18) is positive and
      the minimum does not exceed the maximum; a missing "adv", a missing or
      unconvertible price, or an unconvertible limit makes it invalid. */
  lemma ValidAdCharacterization(p: real, lo: Option<real>, hi: Option<real>, parse: FloatParser)
    ensures var ad := MakeAd(JNum(p), if lo.Some? then Some(JNum(lo.value)) else None,
                                      if hi.Some? then Some(JNum(hi.value)) else None);
      var l := lo.GetOr(DefaultMinAmount);
      var h := hi.GetOr(DefaultMaxAmount);
      ValidAd(ad, parse) <==> p > 0.0 && l >= 0.0 && h > 0.0 && l <= h
    ensures ValidAd(MakeAd(JNum(p), None, None), parse) <==> p > 0.0
  {
    var withMin: map<string, Json> := if lo.Some? then map["minSingleTransAmount" := JNum(lo.value)] else map[];
    var withMax := if hi.Some? then withMin["maxSingleTransAmount" := JNum(hi.value)] else withMin;
    var adv := withMax["price" := JNum(p)];
    assert "price" in adv && adv["price"] == JNum(p);
    assert ("minSingleTransAmount" in adv) == lo.Some?;
    assert ("maxSingleTransAmount" in adv) == hi.Some?;
  }

  /** Ads of the wrong shape are invalid: no "adv" object, no price, a null
      price or a null limit. */
  lemma MalformedAdsInvalid(p: real, parse: FloatParser)
    ensures !ValidAd(JObj(map[]), parse)
    ensures !ValidAd(JObj(map["adv" := JObj(map[])]), parse)
    ensures !ValidAd(MakeAd(JNull, None, None), parse)
    ensures !ValidAd(MakeAd(JNum(p), Some(JNull), None), parse)
    ensures !ValidAd(JObj(map["adv" := JNull]), parse)
  {
  }

  /** The prices of the valid ads, in input order. */
  function ValidPrices(ads: seq<Json>, parse: FloatParser): (r: seq<real>)
    ensures forall i :: 0 <= i < |r| ==> r[i] > 0.0
    ensures |r| <= |ads|
  {
    if ads == [] then []
    else if ValidAd(ads[0], parse) then [AdPrice(ads[0], parse).value] + ValidPrices(ads[1..], parse)
    else ValidPrices(ads[1..], parse)
  }

  /** The part of `average_price` after the sort: keep the `take_top`
      cheapest and average the last `average_last_n` of those
      (`top_prices[-average_last_n:]`). */
  function TrimmedMean(sorted: seq<real>, takeTop: int, averageLastN: int): (r: Option<real>)
    ensures |SliceTo(sorted, Max(takeTop, 0))| < Max(averageLastN, 1) ==> r.None?
    ensures var k := TopCount(|sorted|, takeTop);
      && (averageLastN > 0 ==>
            r == if averageLastN <= k then Some(Mean(sorted[k - averageLastN..k])) else None)
      && (averageLastN == 0 ==> r == if k > 0 then Some(Mean(sorted[..k])) else None)
      && (averageLastN < 0 ==>
            r == if -averageLastN < k then Some(Mean(sorted[-averageLastN..k])) else None)
  {
    var top := SliceTo(sorted, Max(takeTop, 0));
    var k := TopCount(|sorted|, takeTop);
    assert top == sorted[..k];
    LastN(top, averageLastN);
    assert averageLastN > 0 && averageLastN <= k ==> top[|top| - averageLastN..] == sorted[k - averageLastN..k];
    assert averageLastN < 0 && -averageLastN < k ==> top[-averageLastN..] == sorted[-averageLastN..k];
    if |top| < Max(averageLastN, 1) then None
    else
      var toAverage := SliceFrom(top, -averageLastN);
      if toAverage == [] then None else Some(Mean(toAverage))
  }

  /** How many prices `valid_ads[: max(take_top, 0)]` keeps out of `n`. */
  function TopCount(n: nat, takeTop: int): (k: nat)
    ensures k <= n
    ensures k == n || k == Max(takeTop, 0)
    ensures k <= Max(takeTop, 0)
  {
    if takeTop <= 0 then 0 else if takeTop < n then takeTop else n
  }

  /** `average_price(…)` after the fetch: drop invalid ads, sort the rest by
      price, then take the trimmed mean. Only prices are used after the
      sort, so the model sorts the prices. */
  function AveragePrice(ads: seq<Json>, takeTop: int, averageLastN: int,
                        minValidAds: Option<int>, parse: FloatParser): (r: Option<real>)
    ensures ads == [] ==> r.None?
    ensures minValidAds.Some? && |ValidPrices(ads, parse)| < minValidAds.value ==> r.None?
    ensures |SliceTo(Sort(ValidPrices(ads, parse)), Max(takeTop, 0))| < Max(averageLastN, 1) ==> r.None?
    ensures ads != [] && (minValidAds.None? || |ValidPrices(ads, parse)| >= minValidAds.value) ==>
      r == TrimmedMean(Sort(ValidPrices(ads, parse)), takeTop, averageLastN)
    ensures r.Some? ==> var valid := ValidPrices(ads, parse);
      && valid != []
      && valid[MinIndex(valid)] <= r.value <= valid[MaxIndex(valid)]
      && r.value > 0.0
  {
    if ads == [] then None
    else
      var valid := ValidPrices(ads, parse);
      if minValidAds.Some? && |valid| < minValidAds.value then None
      else
        var r := TrimmedMean(Sort(valid), takeTop, averageLastN);
        if r.Some? then
          TrimmedMeanDrawn(valid, takeTop, averageLastN);
          r
        else r
  }

  /** A trimmed mean averages elements of the sorted sequence. */
  lemma TrimmedMeanDrawn(valid: seq<real>, takeTop: int, averageLastN: int)
    requires TrimmedMean(Sort(valid), takeTop, averageLastN).Some?
    ensures var m := TrimmedMean(Sort(valid), takeTop, averageLastN).value;
      && valid != []
      && valid[MinIndex(valid)] <= m <= valid[MaxIndex(valid)]
      && ((forall j :: 0 <= j < |valid| ==> valid[j] > 0.0) ==> m > 0.0)
  {
    TrimmedMeanOfArrangement(Sort(valid), valid, takeTop, averageLastN);
  }

  lemma TrimmedMeanOfArrangement(sorted: seq<real>, valid: seq<real>, takeTop: int, averageLastN: int)
    requires multiset(sorted) == multiset(valid)
    requires TrimmedMean(sorted, takeTop, averageLastN).Some?
    ensures var m := TrimmedMean(sorted, takeTop, averageLastN).value;
      && valid != []
      && valid[MinIndex(valid)] <= m <= valid[MaxIndex(valid)]
      && ((forall j :: 0 <= j < |valid| ==> valid[j] > 0.0) ==> m > 0.0)
  {
    var top := SliceTo(sorted, Max(takeTop, 0));
    var toAverage := SliceFrom(top, -averageLastN);
    assert TrimmedMean(sorted, takeTop, averageLastN) == Some(Mean(toAverage));
    var b := SliceIndex(-averageLastN, |top|);
    forall i | 0 <= i < |toAverage| ensures toAverage[i] in valid {
      assert toAverage[i] == top[b + i];
      assert top[b + i] in sorted;
      assert top[b + i] in multiset(sorted);
    }
    MeanOfDrawn(toAverage, valid);
  }

  /** The valid prices of one ad: its price, or nothing. */
  lemma ValidPricesSingle(ad: Json, parse: FloatParser)
    ensures ValidPrices([ad], parse) == if ValidAd(ad, parse) then [AdPrice(ad, parse).value] else []
  {
    assert [ad][1..] == [];
  }

  /** Filtering distributes over concatenation. */
  lemma {:induction false} ValidPricesAppend(a: seq<Json>, b: seq<Json>, parse: FloatParser)
    ensures ValidPrices(a + b, parse) == ValidPrices(a, parse) + ValidPrices(b, parse)
  {
    if a == [] {
      assert a + b == b;
    } else {
      assert (a + b)[0] == a[0];
      assert (a + b)[1..] == a[1..] + b;
      ValidPricesAppend(a[1..], b, parse);
      var tail := ValidPrices(a[1..], parse);
      if ValidAd(a[0], parse) {
        var x := AdPrice(a[0], parse).value;
        calc {
          ValidPrices(a + b, parse);
          [x] + ValidPrices(a[1..] + b, parse);
          [x] + (tail + ValidPrices(b, parse));
          ([x] + tail) + ValidPrices(b, parse);
          ValidPrices(a, parse) + ValidPrices(b, parse);
        }
      } else {
        calc {
          ValidPrices(a + b, parse);
          ValidPrices(a[1..] + b, parse);
          tail + ValidPrices(b, parse);
          ValidPrices(a, parse) + ValidPrices(b, parse);
        }
      }
    }
  }

  /** Taking one ad out of the list takes its price (if any) out of the
      valid prices. */
  lemma {:induction false} ValidPricesRemove(b: seq<Json>, k: int, parse: FloatParser)
    requires 0 <= k < |b|
    ensures multiset(ValidPrices(b, parse))
         == multiset(ValidPrices([b[k]], parse)) + multiset(ValidPrices(b[..k] + b[k + 1..], parse))
  {
    var left, right := b[..k], b[k + 1..];
    assert b == left + ([b[k]] + right);
    ValidPricesAppend(left, [b[k]] + right, parse);
    ValidPricesAppend([b[k]], right, parse);
    ValidPricesAppend(left, right, parse);
    var pre, mid, post := ValidPrices(left, parse), ValidPrices([b[k]], parse), ValidPrices(right, parse);
    assert multiset(pre + (mid + post)) == multiset(mid) + multiset(pre + post);
  }

  /** Reordering the ads reorders the valid prices and nothing more. */
  lemma {:induction false} ValidPricesPermutation(a: seq<Json>, b: seq<Json>, parse: FloatParser)
    requires multiset(a) == multiset(b)
    ensures multiset(ValidPrices(a, parse)) == multiset(ValidPrices(b, parse))
  {
    if a == [] {
      assert b == [] by { assert |multiset(b)| == 0; }
    } else {
      assert a[0] in multiset(b);
      var k :| 0 <= k < |b| && b[k] == a[0];
      var rest := b[..k] + b[k + 1..];
      assert multiset(a[1..]) == multiset(rest) by {
        assert a == [a[0]] + a[1..];
        assert b == b[..k] + [b[k]] + b[k + 1..];
        assert multiset(a[1..]) == multiset(a) - multiset{a[0]};
        assert multiset(rest) == multiset(b) - multiset{b[k]};
      }
      ValidPricesPermutation(a[1..], rest, parse);
      ValidPricesRemove(b, k, parse);
      ValidPricesRemove(a, 0, parse);
      assert a[..0] + a[1..] == a[1..];
    }
  }

  /** The average depends only on the multiset of valid prices: neither the
      order of the ads nor the presence of invalid ads changes it. */
  lemma AverageDependsOnlyOnValidPrices(a: seq<Json>, b: seq<Json>, takeTop: int, averageLastN: int,
                                        minValidAds: Option<int>, parse: FloatParser)
    requires multiset(ValidPrices(a, parse)) == multiset(ValidPrices(b, parse))
    ensures AveragePrice(a, takeTop, averageLastN, minValidAds, parse)
         == AveragePrice(b, takeTop, averageLastN, minValidAds, parse)
  {
    SortPermutationInvariant(ValidPrices(a, parse), ValidPrices(b, parse));
    assert |ValidPrices(a, parse)| == |ValidPrices(b, parse)| by {
      assert |multiset(ValidPrices(a, parse))| == |multiset(ValidPrices(b, parse))|;
    }
  }

  /** Shuffling the ads, or mixing invalid ads in, leaves the average unchanged. */
  lemma AverageIgnoresOrderAndInvalidAds(ads: seq<Json>, shuffled: seq<Json>, junk: seq<Json>,
                                         takeTop: int, averageLastN: int, minValidAds: Option<int>,
                                         parse: FloatParser)
    requires multiset(shuffled) == multiset(ads)
    requires forall i :: 0 <= i < |junk| ==> !ValidAd(junk[i], parse)
    ensures AveragePrice(shuffled, takeTop, averageLastN, minValidAds, parse)
         == AveragePrice(ads, takeTop, averageLastN, minValidAds, parse)
    ensures AveragePrice(ads + junk, takeTop, averageLastN, minValidAds, parse)
         == AveragePrice(ads, takeTop, averageLastN, minValidAds, parse)
  {
    ValidPricesPermutation(shuffled, ads, parse);
    AverageDependsOnlyOnValidPrices(shuffled, ads, takeTop, averageLastN, minValidAds, parse);
    ValidPricesAppend(ads, junk, parse);
    assert ValidPrices(junk, parse) == [] by { NoValidPrices(junk, parse); }
    assert ads + junk == ads + junk;
    assert ValidPrices(ads + junk, parse) == ValidPrices(ads, parse);
    AverageDependsOnlyOnValidPrices(ads + junk, ads, takeTop, averageLastN, minValidAds, parse);
  }

  lemma {:induction false} NoValidPrices(junk: seq<Json>, parse: FloatParser)
    requires forall i :: 0 <= i < |junk| ==> !ValidAd(junk[i], parse)
    ensures ValidPrices(junk, parse) == []
  {
    if junk != [] {
      NoValidPrices(junk[1..], parse);
    }
  }

  /** The trimmed average for any positive `average_last_n`: with the valid
      prices in ascending order and `k` of them kept by `take_top`, the
      result is the mean of the last `average_last_n` of those `k`, and
      there is none when fewer than `average_last_n` are kept. */
  lemma AverageOfCheapest(ads: seq<Json>, sorted: seq<real>, takeTop: int, averageLastN: int,
                          minValidAds: Option<int>, parse: FloatParser)
    requires Sorted(sorted) && multiset(sorted) == multiset(ValidPrices(ads, parse))
    requires averageLastN > 0
    ensures var k := TopCount(|sorted|, takeTop);
      (minValidAds.None? || minValidAds.value <= |sorted|) ==>
        AveragePrice(ads, takeTop, averageLastN, minValidAds, parse)
          == if averageLastN <= k then Some(Mean(sorted[k - averageLastN..k])) else None
  {
    if minValidAds.None? || minValidAds.value <= |sorted| {
      AverageOfArrangement(ads, sorted, takeTop, averageLastN, minValidAds, parse);
      assert ads == [] ==> TopCount(|sorted|, takeTop) == 0;
    }
  }

  /** With enough valid ads the average is the trimmed mean of any ascending
      arrangement of the valid prices. */
  lemma AverageOfArrangement(ads: seq<Json>, sorted: seq<real>, takeTop: int, averageLastN: int,
                             minValidAds: Option<int>, parse: FloatParser)
    requires Sorted(sorted) && multiset(sorted) == multiset(ValidPrices(ads, parse))
    requires minValidAds.None? || minValidAds.value <= |sorted|
    ensures ads == [] ==> sorted == [] && AveragePrice(ads, takeTop, averageLastN, minValidAds, parse).None?
    ensures ads != [] ==>
      AveragePrice(ads, takeTop, averageLastN, minValidAds, parse) == TrimmedMean(sorted, takeTop, averageLastN)
  {
    var valid := ValidPrices(ads, parse);
    SortedUnique(Sort(valid), sorted);
    assert |valid| == |sorted|;
  }

  /** With the defaults (top 5, last 3) and at least five valid ads, the
      result is the mean of the 3rd, 4th and 5th cheapest prices, for any
      ascending arrangement of the valid prices. */
  lemma DefaultsAverageThirdToFifthCheapest(ads: seq<Json>, sorted: seq<real>, minValidAds: Option<int>,
                                            parse: FloatParser)
    requires Sorted(sorted) && multiset(sorted) == multiset(ValidPrices(ads, parse))
    requires |sorted| >= 5
    requires minValidAds.None? || minValidAds.value <= |sorted|
    ensures AveragePrice(ads, DefaultTakeTop, DefaultAverageLastN, minValidAds, parse)
         == Some((sorted[2] + sorted[3] + sorted[4]) / 3.0)
  {
    var valid := ValidPrices(ads, parse);
    SortedUnique(Sort(valid), sorted);
    assert |valid| == |sorted|;
    assert ads != [];
    TrimmedMeanDefaults(sorted);
  }

  lemma TrimmedMeanDefaults(sorted: seq<real>)
    requires |sorted| >= 5
    ensures TrimmedMean(sorted, DefaultTakeTop, DefaultAverageLastN)
         == Some((sorted[2] + sorted[3] + sorted[4]) / 3.0)
  {
    var top := SliceTo(sorted, 5);
    assert top == sorted[..5];
    LastN(top, 3);
    assert SliceFrom(top, -3) == [sorted[2], sorted[3], sorted[4]];
    SumThree(sorted[2], sorted[3], sorted[4]);
  }

  /** With `average_last_n == 0` the slice `[-0:]` is the whole selection:
      all of the `take_top` cheapest valid prices are averaged. */
  lemma LastZeroAveragesAllTop(ads: seq<Json>, takeTop: int, minValidAds: Option<int>, parse: FloatParser)
    requires var top := SliceTo(Sort(ValidPrices(ads, parse)), Max(takeTop, 0)); top != []
    requires minValidAds.None? || minValidAds.value <= |ValidPrices(ads, parse)|
    ensures AveragePrice(ads, takeTop, 0, minValidAds, parse)
         == Some(Mean(SliceTo(Sort(ValidPrices(ads, parse)), Max(takeTop, 0))))
  {
    assert ads != [];
    LastN(SliceTo(Sort(ValidPrices(ads, parse)), Max(takeTop, 0)), 0);
  }

  /** With no valid ad at all there is never an average. */
  lemma NoValidAdNoAverage(ads: seq<Json>, takeTop: int, averageLastN: int, minValidAds: Option<int>,
                           parse: FloatParser)
    requires forall i :: 0 <= i < |ads| ==> !ValidAd(ads[i], parse)
    ensures AveragePrice(ads, takeTop, averageLastN, minValidAds, parse).None?
  {
    NoValidPrices(ads, parse);
  }
}
