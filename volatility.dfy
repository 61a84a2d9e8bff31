/** test_atr.py: the Average True Range of a run of candles (Wilder's smoothing of the
    per-candle true range) and the take-profit and stop-loss levels placed a multiple of
    it away from the current price. Candles and the current price are inputs; fetching
    them from the market-data service is not modelled. */
module Volatility {
  import opened Wrappers
  import Text

  datatype Candle = Candle(high: real, low: real, close: real)

  /** Why no usable levels come out. A zero period raises in `1 / atr_period`, a
      negative one gives pandas an out-of-range smoothing factor, and an empty candle
      table has no last ATR value. `NonFinite` is not an exception: a zero price or a
      zero stop distance divides numpy floats by zero, and the source returns its
      dictionary with infinite or undefined percentages and ratio. */
  datatype Failure = ZeroDivisionError | ValueError | NoCandles | NonFinite

  function Abs(x: real): real {
    if x < 0.0 then -x else x
  }

  /** The true range of a candle: the largest of its own range and its distances from
      the previous close. The first candle has no previous close (pandas' NaN drops out
      of Python's `max`), leaving its own range. */
  function TrueRange(c: Candle, previousClose: Option<real>): (tr: real)
    ensures tr >= c.high - c.low
    ensures previousClose.Some? ==>
      tr >= Abs(c.high - previousClose.value) && tr >= Abs(c.low - previousClose.value)
    ensures previousClose.Some? ==>
      tr == c.high - c.low || tr == Abs(c.high - previousClose.value) || tr == Abs(c.low - previousClose.value)
    ensures previousClose.None? ==> tr == c.high - c.low
  {
    match previousClose
    case None => c.high - c.low
    case Some(pc) =>
      var a, b, d := c.high - c.low, Abs(c.high - pc), Abs(c.low - pc);
      var m := if a >= b then a else b;
      if m >= d then m else d
  }

  /** The `tr` column: one true range per candle, each candle measured against the
      close before it. */
  function TrueRanges(candles: seq<Candle>): (trs: seq<real>)
    ensures |trs| == |candles|
  {
    seq(|candles|, i requires 0 <= i < |candles| =>
      TrueRange(candles[i], if i == 0 then None else Some(candles[i - 1].close)))
  }

  /** A candle whose high is not below its low has a non-negative true range, and so
      has every candle after the first whatever its shape. */
  lemma TrueRangesNonNegative(candles: seq<Candle>, i: nat)
    requires i < |candles|
    requires i == 0 ==> candles[0].high >= candles[0].low
    ensures TrueRanges(candles)[i] >= 0.0
    ensures i == 0 ==> TrueRanges(candles)[0] == candles[0].high - candles[0].low
  {
  }

  /** `ewm(alpha=1/period, adjust=False).mean()` at the last element: seeded with the
      first value, then each step keeps (1 - alpha) of the previous mean and adds alpha
      of the new value. */
  function Smoothed(xs: seq<real>, period: nat): real
    requires |xs| > 0 && period >= 1
  {
    if |xs| == 1 then xs[0]
    else Mix(1.0 / period as real, Smoothed(xs[..|xs| - 1], period), xs[|xs| - 1])
  }

  /** One step of the exponential mean with smoothing factor `alpha`. */
  function Mix(alpha: real, prev: real, x: real): real {
    (1.0 - alpha) * prev + alpha * x
  }

  /** The `ATR` column: the smoothed mean at every prefix of the true ranges. */
  function AtrSeries(candles: seq<Candle>, period: nat): (atr: seq<real>)
    requires period >= 1
    ensures |atr| == |candles|
  {
    var trs := TrueRanges(candles);
    seq(|candles|, i requires 0 <= i < |candles| => Smoothed(trs[..i + 1], period))
  }

  /** One smoothing step in Wilder's form: the mean moves a `period`-th of the way from
      its previous value towards the new value. */
  lemma SmoothedStep(xs: seq<real>, period: nat)
    requires |xs| > 1 && period >= 1
    ensures Smoothed(xs, period) == Toward(Smoothed(xs[..|xs| - 1], period), xs[|xs| - 1], period)
  {
    WilderForm(period as real, Smoothed(xs[..|xs| - 1], period), xs[|xs| - 1]);
  }

  /** `prev` moved a `period`-th of the way towards `x`. */
  function Toward(prev: real, x: real, period: nat): real
    requires period >= 1
  {
    prev + (x - prev) / period as real
  }

  lemma WilderForm(p: real, prev: real, x: real)
    requires p >= 1.0
    ensures Mix(1.0 / p, prev, x) == prev + (x - prev) / p
  {
    var q := 1.0 / p;
    assert (x - prev) / p == (x - prev) * q;
    assert (1.0 - q) * prev + q * x == prev + (x - prev) * q;
  }

  /** Wilder's form of the recurrence: the first value is the first true range, and each
      later value moves from the previous one a `period`-th of the way to the new range. */
  lemma AtrSeriesRecurrence(candles: seq<Candle>, period: nat, t: nat)
    requires period >= 1 && t < |candles|
    ensures t == 0 ==> AtrSeries(candles, period)[0] == TrueRanges(candles)[0]
    ensures t > 0 ==>
      var a := AtrSeries(candles, period);
      a[t] == Toward(a[t - 1], TrueRanges(candles)[t], period)
  {
    var trs := TrueRanges(candles);
    var a := AtrSeries(candles, period);
    if t == 0 {
      assert |trs[..1]| == 1 && trs[..1][0] == trs[0];
      assert a[0] == Smoothed(trs[..1], period);
    } else {
      var w := trs[..t + 1];
      assert w[..t] == trs[..t] && w[t] == trs[t];
      assert a[t - 1] == Smoothed(trs[..t], period);
      assert a[t] == Smoothed(w, period);
      SmoothedStep(w, period);
    }
  }

  lemma MulNonNegative(a: real, b: real)
    requires a >= 0.0 && b >= 0.0
    ensures a * b >= 0.0
  {
  }

  /** A mix keeping a share `1 - alpha` of one value and `alpha` of another stays
      between any bounds both values respect. */
  lemma MixWithin(alpha: real, prev: real, x: real, lo: real, hi: real)
    requires 0.0 <= alpha <= 1.0
    requires lo <= prev <= hi && lo <= x <= hi
    ensures lo <= Mix(alpha, prev, x) <= hi
  {
    var m := Mix(alpha, prev, x);
    MulNonNegative(1.0 - alpha, prev - lo);
    MulNonNegative(alpha, x - lo);
    MulNonNegative(1.0 - alpha, hi - prev);
    MulNonNegative(alpha, hi - x);
    assert m - lo == (1.0 - alpha) * (prev - lo) + alpha * (x - lo);
    assert hi - m == (1.0 - alpha) * (hi - prev) + alpha * (hi - x);
  }

  /** The smoothed mean never leaves the range of the values it has seen. */
  lemma {:induction false} SmoothedWithin(xs: seq<real>, period: nat, lo: real, hi: real)
    requires |xs| > 0 && period >= 1
    requires forall i :: 0 <= i < |xs| ==> lo <= xs[i] <= hi
    ensures lo <= Smoothed(xs, period) <= hi
    decreases |xs|
  {
    if |xs| > 1 {
      var init := xs[..|xs| - 1];
      assert forall i :: 0 <= i < |init| ==> init[i] == xs[i];
      SmoothedWithin(init, period, lo, hi);
      assert 0.0 < 1.0 / period as real <= 1.0;
      MixWithin(1.0 / period as real, Smoothed(init, period), xs[|xs| - 1], lo, hi);
    }
  }

  /** Every ATR value lies between the smallest and the largest true range up to and
      including its own candle. */
  lemma AtrWithinTrueRanges(candles: seq<Candle>, period: nat, t: nat, lo: real, hi: real)
    requires period >= 1 && t < |candles|
    requires forall i :: 0 <= i <= t ==> lo <= TrueRanges(candles)[i] <= hi
    ensures lo <= AtrSeries(candles, period)[t] <= hi
  {
    var prefix := TrueRanges(candles)[..t + 1];
    assert forall i :: 0 <= i < |prefix| ==> prefix[i] == TrueRanges(candles)[i];
    SmoothedWithin(prefix, period, lo, hi);
  }

  /** `calculate_atr(df, period)['ATR'].iloc[-1]`: the last value of the ATR column. */
  function Atr(candles: seq<Candle>, period: int): (r: Result<real, Failure>)
    ensures r.Success? <==> period >= 1 && |candles| > 0
    ensures r.Success? ==> r.value == AtrSeries(candles, period)[|candles| - 1]
  {
    if period == 0 then Failure(ZeroDivisionError)
    else if period < 0 then Failure(ValueError)
    else if candles == [] then Failure(NoCandles)
    else Success(AtrSeries(candles, period)[|candles| - 1])
  }

  /** Well-formed candles (high never below low) give a non-negative ATR. */
  lemma AtrNonNegative(candles: seq<Candle>, period: int)
    requires period >= 1 && |candles| > 0
    requires forall i :: 0 <= i < |candles| ==> candles[i].high >= candles[i].low
    ensures Atr(candles, period).Success? && Atr(candles, period).value >= 0.0
  {
    var trs := TrueRanges(candles);
    var hi := trs[0];
    var k := 0;
    while k < |trs|
      invariant 0 <= k <= |trs|
      invariant forall i :: 0 <= i < k ==> trs[i] <= hi
    {
      if trs[k] > hi {
        hi := trs[k];
      }
      k := k + 1;
    }
    forall i | 0 <= i < |trs|
      ensures 0.0 <= trs[i] <= hi
    {
      TrueRangesNonNegative(candles, i);
    }
    AtrWithinTrueRanges(candles, period, |candles| - 1, 0.0, hi);
  }

  /** The dictionary `calculate_tp_sl` returns. */
  datatype TpSl = TpSl(
    symbol: string,
    positionType: string,
    currentPrice: real,
    atr: real,
    tpPrice: real,
    slPrice: real,
    tpDistance: real,
    slDistance: real,
    tpPercentage: real,
    slPercentage: real,
    riskRewardRatio: real,
    tpDirection: string,
    slDirection: string)

  /** `calculate_tp_sl`, with the candles and the current price as inputs. A position
      type that lower-cases to `long` is long; anything else is short. */
  function CalculateTpSl(symbol: string, candles: seq<Candle>, atrPeriod: int, atrTpMultiplier: real,
                         atrSlMultiplier: real, positionType: string, currentPrice: real): Result<TpSl, Failure>
  {
    match Atr(candles, atrPeriod)
    case Failure(e) => Failure(e)
    case Success(atr) => Levels(symbol, positionType, currentPrice, atr, atrTpMultiplier, atrSlMultiplier)
  }

  /** The part of `calculate_tp_sl` after the ATR is known: the levels, their distances
      and percentages, and the risk/reward ratio. */
  function Levels(symbol: string, positionType: string, currentPrice: real, atr: real,
                  atrTpMultiplier: real, atrSlMultiplier: real): Result<TpSl, Failure>
  {
    var isLong := Text.Lower(positionType) == "long";
    var tpPrice := if isLong then currentPrice + atr * atrTpMultiplier else currentPrice - atr * atrTpMultiplier;
    var slPrice := if isLong then currentPrice - atr * atrSlMultiplier else currentPrice + atr * atrSlMultiplier;
    var tpDistance := Abs(tpPrice - currentPrice);
    var slDistance := Abs(slPrice - currentPrice);
    if currentPrice == 0.0 || slDistance == 0.0 then Failure(NonFinite)
    else
      Success(TpSl(
        symbol, positionType, currentPrice, atr, tpPrice, slPrice, tpDistance, slDistance,
        (tpDistance / currentPrice) * 100.0, (slDistance / currentPrice) * 100.0,
        tpDistance / slDistance,
        if isLong then "UP" else "DOWN", if isLong then "DOWN" else "UP"))
  }

  /** The calculation yields finite levels exactly when the ATR can be computed, the
      current price is not zero and the stop-loss distance is not zero; it then reports
      the last ATR value and the current price it was given. A zero price or stop
      distance is reported as `NonFinite`, and an ATR failure passes through. */
  lemma TpSlFailures(symbol: string, candles: seq<Candle>, atrPeriod: int, tpMult: real, slMult: real,
                     positionType: string, price: real)
    ensures var r := CalculateTpSl(symbol, candles, atrPeriod, tpMult, slMult, positionType, price);
      r.Success? <==> Atr(candles, atrPeriod).Success? && price != 0.0 && Atr(candles, atrPeriod).value * slMult != 0.0
    ensures var r := CalculateTpSl(symbol, candles, atrPeriod, tpMult, slMult, positionType, price);
      r.Success? ==> r.value.atr == Atr(candles, atrPeriod).value && r.value.currentPrice == price
    ensures var r := CalculateTpSl(symbol, candles, atrPeriod, tpMult, slMult, positionType, price);
      Atr(candles, atrPeriod).Failure? ==> r == Failure(Atr(candles, atrPeriod).error)
    ensures var r := CalculateTpSl(symbol, candles, atrPeriod, tpMult, slMult, positionType, price);
      Atr(candles, atrPeriod).Success? && (price == 0.0 || Atr(candles, atrPeriod).value * slMult == 0.0)
      ==> r == Failure(NonFinite)
  {
  }

  /** With a positive ATR and positive multipliers, a long position's take profit lies
      above the price and its stop loss below; a short position's mirror them. */
  lemma TpSlSides(symbol: string, candles: seq<Candle>, atrPeriod: int, tpMult: real, slMult: real,
                  positionType: string, price: real)
    requires tpMult > 0.0 && slMult > 0.0 && price != 0.0
    requires Atr(candles, atrPeriod).Success? && Atr(candles, atrPeriod).value > 0.0
    ensures var r := CalculateTpSl(symbol, candles, atrPeriod, tpMult, slMult, positionType, price);
      && r.Success?
      && (Text.Lower(positionType) == "long" ==>
            r.value.slPrice < price < r.value.tpPrice && r.value.tpDirection == "UP" && r.value.slDirection == "DOWN")
      && (Text.Lower(positionType) != "long" ==>
            r.value.tpPrice < price < r.value.slPrice && r.value.tpDirection == "DOWN" && r.value.slDirection == "UP")
  {
    var atr := Atr(candles, atrPeriod).value;
    assert atr * tpMult > 0.0 && atr * slMult > 0.0;
  }

  lemma AbsMul(a: real, b: real)
    ensures Abs(a * b) == Abs(a) * Abs(b)
  {
    if a < 0.0 && b < 0.0 {
      assert a * b == (-a) * (-b);
    } else if a < 0.0 {
      assert -(a * b) == (-a) * b;
    } else if b < 0.0 {
      assert -(a * b) == a * (-b);
    }
  }

  /** A common non-zero factor cancels out of a ratio of absolute values. */
  lemma RatioOfMultiples(atr: real, tp: real, sl: real)
    requires atr * sl != 0.0
    ensures Abs(atr * tp) / Abs(atr * sl) == Abs(tp) / Abs(sl)
  {
    AbsMul(atr, tp);
    AbsMul(atr, sl);
    var x, y, z := Abs(atr), Abs(tp), Abs(sl);
    assert x != 0.0 && z != 0.0;
    assert (x * y) / (x * z) == y / z;
  }

  /** The distances are the ATR multiples, the percentages are of the current price,
      and the risk/reward ratio is the ratio of the multipliers, whatever the ATR and the
      side. */
  lemma LevelsRiskReward(symbol: string, positionType: string, price: real, atr: real, tpMult: real, slMult: real)
    requires Levels(symbol, positionType, price, atr, tpMult, slMult).Success?
    ensures var v := Levels(symbol, positionType, price, atr, tpMult, slMult).value;
      && v.atr == atr
      && v.tpDistance == Abs(atr * tpMult) && v.slDistance == Abs(atr * slMult)
      && v.tpPercentage == v.tpDistance / price * 100.0 && v.slPercentage == v.slDistance / price * 100.0
      && v.riskRewardRatio == Abs(tpMult) / Abs(slMult)
  {
    var v := Levels(symbol, positionType, price, atr, tpMult, slMult).value;
    assert v.tpDistance == Abs(atr * tpMult) && v.slDistance == Abs(atr * slMult);
    assert v.riskRewardRatio == v.tpDistance / v.slDistance;
    RatioOfMultiples(atr, tpMult, slMult);
  }
}
