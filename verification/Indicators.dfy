/** The technical measurements offered to AI consumers: EMA, RSI, ATR, VWAP and the MACD histogram. */
module Indicators {
  import opened Common
  import opened Smoothing

  datatype Bar = Bar(high: real, low: real, close: real, volume: int)

  // ---- EMA ----

  function EmaAlpha(period: nat): real {
    2.0 / (period as real + 1.0)
  }

  function EmaAt(values: seq<real>, period: int, i: nat): Option<real>
    requires i < |values|
  {
    if period <= 0 || i + 1 < period then None else Some(Smooth(values[..i + 1], period, EmaAlpha(period)))
  }

  method MoveTowards(current: real, x: real, period: nat, alpha: real, ghost xs: seq<real>) returns (next: real)
    requires 0 < period <= |xs| && current == Smooth(xs, period, alpha)
    ensures next == Smooth(xs + [x], period, alpha)
  {
    SmoothAppend(xs, x, period, alpha);
    next := (x - current) * alpha + current;
  }

  method EmaSeries(values: seq<real>, period: int) returns (out: seq<Option<real>>)
    ensures |out| == |values|
    ensures forall i :: 0 <= i < |values| ==> out[i] == EmaAt(values, period, i)
  {
    out := seq(|values|, i => None);
    if period <= 0 || |values| < period {
      return;
    }
    var seed := Sum(values[..period]) / period as real;
    out := out[period - 1 := Some(seed)];
    var alpha := EmaAlpha(period);
    var current := seed;
    for index := period to |values|
      invariant |out| == |values|
      invariant current == Smooth(values[..index], period, alpha)
      invariant forall i :: 0 <= i < index ==> out[i] == EmaAt(values, period, i)
      invariant forall i :: index <= i < |values| ==> out[i] == None
    {
      assert values[..index + 1] == values[..index] + [values[index]];
      current := MoveTowards(current, values[index], period, alpha, values[..index]);
      out := out[index := Some(current)];
    }
  }

  lemma EmaAlphaIsFraction(period: nat)
    requires period > 0
    ensures 0.0 < EmaAlpha(period) <= 1.0
  {
  }

  /** Every EMA lies between any bounds on the prices it has seen. */
  lemma EmaWithinHull(values: seq<real>, period: int, i: nat, lo: real, hi: real)
    requires i < |values| && Within(values[..i + 1], lo, hi)
    ensures EmaAt(values, period, i).Some? <==> 0 < period <= i + 1
    ensures EmaAt(values, period, i).Some? ==> lo <= EmaAt(values, period, i).value <= hi
  {
    if 0 < period <= i + 1 {
      EmaAlphaIsFraction(period);
      SmoothWithin(values[..i + 1], period, EmaAlpha(period), lo, hi);
    }
  }

  // ---- RSI ----

  function Rise(values: seq<real>, i: nat): real
    requires i + 1 < |values|
  {
    MaxReal(values[i + 1] - values[i], 0.0)
  }

  function Fall(values: seq<real>, i: nat): real
    requires i + 1 < |values|
  {
    MaxReal(-(values[i + 1] - values[i]), 0.0)
  }

  function Rises(values: seq<real>): (s: seq<real>)
    requires values != []
    ensures |s| == |values| - 1 && forall i :: 0 <= i < |s| ==> s[i] == Rise(values, i)
  {
    seq(|values| - 1, i requires 0 <= i < |values| - 1 => Rise(values, i))
  }

  function Falls(values: seq<real>): (s: seq<real>)
    requires values != []
    ensures |s| == |values| - 1 && forall i :: 0 <= i < |s| ==> s[i] == Fall(values, i)
  {
    seq(|values| - 1, i requires 0 <= i < |values| - 1 => Fall(values, i))
  }

  lemma RatioNonNegative(gain: real, loss: real)
    requires gain >= 0.0 && loss > 0.0
    ensures gain / loss >= 0.0
  {
  }

  function RsiOf(gain: real, loss: real): real
    requires gain >= 0.0 && loss >= 0.0
  {
    if loss == 0.0 then (if gain > 0.0 then 100.0 else 50.0)
    else
      RatioNonNegative(gain, loss);
      100.0 - 100.0 / (1.0 + gain / loss)
  }

  function WilderAlpha(period: nat): real
    requires period > 0
  {
    1.0 / period as real
  }

  lemma WilderAlphaIsFraction(period: nat)
    requires period > 0
    ensures 0.0 < WilderAlpha(period) <= 1.0
    ensures period > 1 ==> WilderAlpha(period) < 1.0
  {
  }

  lemma {:induction false} HullAbove(xs: seq<real>) returns (hi: real)
    requires NonNegative(xs)
    ensures Within(xs, 0.0, hi)
  {
    if xs == [] {
      hi := 0.0;
    } else {
      var n := |xs| - 1;
      assert forall i :: 0 <= i < n ==> xs[..n][i] == xs[i];
      var h := HullAbove(xs[..n]);
      hi := MaxReal(h, xs[n]);
      forall i | 0 <= i < |xs|
        ensures 0.0 <= xs[i] <= hi
      {
        if i < n {
          assert xs[i] == xs[..n][i];
        }
      }
    }
  }

  /** Wilder's average of a list. */
  function Wilder(xs: seq<real>, period: nat): real
    requires 0 < period <= |xs|
  {
    Smooth(xs, period, WilderAlpha(period))
  }

  lemma WilderNonNegative(xs: seq<real>, period: nat)
    requires 0 < period <= |xs| && NonNegative(xs)
    ensures Wilder(xs, period) >= 0.0
  {
    var hi := HullAbove(xs);
    WilderAlphaIsFraction(period);
    SmoothWithin(xs, period, WilderAlpha(period), 0.0, hi);
  }

  function AverageRise(values: seq<real>, period: nat): (r: real)
    requires 0 < period < |values|
    ensures r >= 0.0
  {
    WilderNonNegative(Rises(values), period);
    Wilder(Rises(values), period)
  }

  function AverageFall(values: seq<real>, period: nat): (r: real)
    requires 0 < period < |values|
    ensures r >= 0.0
  {
    WilderNonNegative(Falls(values), period);
    Wilder(Falls(values), period)
  }

  function Rsi(values: seq<real>, period: int): Option<real> {
    if period <= 0 || |values| <= period then None
    else Some(RsiOf(AverageRise(values, period), AverageFall(values, period)))
  }

  /** Wilder's step: the old average counted `period - 1` times and the new value once. */
  function WilderNext(avg: real, x: real, period: nat): real
    requires period > 0
  {
    (avg * (period - 1) as real + x) / period as real
  }

  lemma WilderAlgebra(avg: real, x: real, p: real, alpha: real)
    requires p > 0.0 && alpha == 1.0 / p
    ensures (avg * (p - 1.0) + x) / p == Blend(avg, x, alpha)
  {
    assert avg * (p - 1.0) + x == avg * p + (x - avg);
    assert alpha * p == 1.0;
    assert Blend(avg, x, alpha) * p == (x - avg) * (alpha * p) + avg * p;
  }

  lemma NextIsBlend(avg: real, x: real, period: nat)
    requires period > 0
    ensures WilderNext(avg, x, period) == Blend(avg, x, WilderAlpha(period))
  {
    assert (period - 1) as real == period as real - 1.0;
    WilderAlgebra(avg, x, period as real, WilderAlpha(period));
  }

  method UpdateAverage(avg: real, x: real, period: nat, ghost xs: seq<real>) returns (next: real)
    requires 0 < period <= |xs| && avg == Wilder(xs, period)
    ensures next == Wilder(xs + [x], period)
  {
    SmoothAppend(xs, x, period, WilderAlpha(period));
    NextIsBlend(avg, x, period);
    next := WilderNext(avg, x, period);
  }

  method Changes(values: seq<real>, period: nat) returns (gains: seq<real>, losses: seq<real>)
    requires 0 < period < |values|
    ensures gains == Rises(values)[..period] && losses == Falls(values)[..period]
  {
    gains, losses := [], [];
    for index := 1 to period + 1
      invariant gains == Rises(values)[..index - 1] && losses == Falls(values)[..index - 1]
    {
      var change := values[index] - values[index - 1];
      gains := gains + [MaxReal(change, 0.0)];
      losses := losses + [MaxReal(-change, 0.0)];
    }
  }

  lemma ChangesGrow(values: seq<real>, index: nat)
    requires 0 < index < |values|
    ensures Rises(values)[..index] == Rises(values)[..index - 1] + [MaxReal(values[index] - values[index - 1], 0.0)]
    ensures Falls(values)[..index] == Falls(values)[..index - 1] + [MaxReal(-(values[index] - values[index - 1]), 0.0)]
  {
  }

  method NextAverages(values: seq<real>, period: nat, index: nat, avgGain: real, avgLoss: real)
      returns (nextGain: real, nextLoss: real)
    requires 0 < period < index < |values|
    requires avgGain == Wilder(Rises(values)[..index - 1], period) && avgLoss == Wilder(Falls(values)[..index - 1], period)
    ensures nextGain == Wilder(Rises(values)[..index], period) && nextLoss == Wilder(Falls(values)[..index], period)
  {
    ChangesGrow(values, index);
    var change := values[index] - values[index - 1];
    nextGain := UpdateAverage(avgGain, MaxReal(change, 0.0), period, Rises(values)[..index - 1]);
    nextLoss := UpdateAverage(avgLoss, MaxReal(-change, 0.0), period, Falls(values)[..index - 1]);
  }

  method Averages(values: seq<real>, period: nat) returns (avgGain: real, avgLoss: real)
    requires 0 < period < |values|
    ensures avgGain == Wilder(Rises(values), period) && avgLoss == Wilder(Falls(values), period)
  {
    var gains, losses := Changes(values, period);
    avgGain, avgLoss := Sum(gains) / period as real, Sum(losses) / period as real;
    for index := period + 1 to |values|
      invariant avgGain == Wilder(Rises(values)[..index - 1], period)
      invariant avgLoss == Wilder(Falls(values)[..index - 1], period)
    {
      avgGain, avgLoss := NextAverages(values, period, index, avgGain, avgLoss);
    }
    assert Rises(values)[..|values| - 1] == Rises(values) && Falls(values)[..|values| - 1] == Falls(values);
  }

  method RsiWilder(values: seq<real>, period: int) returns (rsi: Option<real>)
    ensures rsi == Rsi(values, period)
  {
    if period <= 0 || |values| <= period {
      return None;
    }
    var avgGain, avgLoss := Averages(values, period);
    assert avgGain == AverageRise(values, period) && avgLoss == AverageFall(values, period);
    if avgLoss == 0.0 {
      return Some(if avgGain > 0.0 then 100.0 else 50.0);
    }
    RatioNonNegative(avgGain, avgLoss);
    var rs := avgGain / avgLoss;
    return Some(100.0 - 100.0 / (1.0 + rs));
  }

  lemma Cancel(x: real, y: real, t: real)
    requires t > 0.0 && x * t == y * t
    ensures x == y
  {
    assert (x - y) * t == 0.0;
  }

  lemma RatioShare(gain: real, loss: real, rs: real)
    requires gain >= 0.0 && loss > 0.0 && rs >= 0.0 && rs * loss == gain
    ensures 100.0 - 100.0 / (1.0 + rs) == 100.0 * gain / (gain + loss)
  {
    var total, q, share := gain + loss, 100.0 / (1.0 + rs), 100.0 * gain / (gain + loss);
    assert q * (1.0 + rs) == 100.0;
    assert (1.0 + rs) * loss == total;
    assert q * total == q * (1.0 + rs) * loss == 100.0 * loss;
    assert share * total == 100.0 * gain;
    assert (100.0 - q) * total == 100.0 * total - q * total;
    Cancel(100.0 - q, share, total);
  }

  /** The share of the average rise in the two averages, in percent; even when nothing moved. */
  lemma RsiIsShare(gain: real, loss: real)
    requires gain >= 0.0 && loss >= 0.0
    ensures gain + loss > 0.0 ==> RsiOf(gain, loss) == 100.0 * gain / (gain + loss)
    ensures gain + loss == 0.0 ==> RsiOf(gain, loss) == 50.0
  {
    if loss > 0.0 {
      RatioNonNegative(gain, loss);
      RatioShare(gain, loss, gain / loss);
    } else if gain > 0.0 {
      assert 100.0 * gain / gain == 100.0;
    }
  }

  lemma ShareWithin(x: real, total: real)
    requires 0.0 <= x <= total && total > 0.0
    ensures 0.0 <= 100.0 * x / total <= 100.0
    ensures 100.0 * x / total == 0.0 <==> x == 0.0
    ensures 100.0 * x / total == 100.0 <==> x == total
    ensures 100.0 * x / total + 100.0 * (total - x) / total == 100.0
  {
    var q := 100.0 * x / total;
    assert q * total == 100.0 * x;
  }

  lemma RsiBounded(values: seq<real>, period: int)
    requires 0 < period < |values|
    ensures 0.0 <= Rsi(values, period).value <= 100.0
  {
    var gain, loss := AverageRise(values, period), AverageFall(values, period);
    RsiIsShare(gain, loss);
    if gain + loss > 0.0 {
      ShareWithin(gain, gain + loss);
    }
  }

  function Reflected(values: seq<real>, axis: real): (r: seq<real>)
    ensures |r| == |values| && forall i :: 0 <= i < |r| ==> r[i] == axis - values[i]
  {
    seq(|values|, i requires 0 <= i < |values| => axis - values[i])
  }

  /** Turning the price chart upside down turns the RSI upside down, flat and one-sided charts
      included. */
  lemma RsiReflects(values: seq<real>, period: int, axis: real)
    ensures Rsi(Reflected(values, axis), period).Some? == Rsi(values, period).Some?
    ensures Rsi(values, period).Some? ==> Rsi(Reflected(values, axis), period).value == 100.0 - Rsi(values, period).value
  {
    if 0 < period < |values| {
      assert Rises(Reflected(values, axis)) == Falls(values);
      assert Falls(Reflected(values, axis)) == Rises(values);
      var gain, loss := AverageRise(values, period), AverageFall(values, period);
      RsiIsShare(gain, loss);
      RsiIsShare(loss, gain);
      if gain + loss > 0.0 {
        ShareWithin(gain, gain + loss);
      }
    }
  }

  ghost predicate NeverFalls(values: seq<real>) {
    forall i :: 0 <= i < |values| - 1 ==> values[i] <= values[i + 1]
  }

  ghost predicate NeverRises(values: seq<real>) {
    forall i :: 0 <= i < |values| - 1 ==> values[i] >= values[i + 1]
  }

  lemma FallsVanish(values: seq<real>)
    requires values != []
    ensures AllZero(Falls(values)) <==> NeverFalls(values)
    ensures AllZero(Rises(values)) <==> NeverRises(values)
  {
    forall i | 0 <= i < |values| - 1
      ensures Falls(values)[i] == 0.0 <==> values[i] <= values[i + 1]
      ensures Rises(values)[i] == 0.0 <==> values[i] >= values[i + 1]
    {
    }
  }

  lemma AveragesVanish(values: seq<real>, period: int)
    requires 1 < period < |values|
    ensures AverageFall(values, period) == 0.0 <==> NeverFalls(values)
    ensures AverageRise(values, period) == 0.0 <==> NeverRises(values)
  {
    WilderAlphaIsFraction(period);
    SmoothVanishes(Falls(values), period, WilderAlpha(period));
    SmoothVanishes(Rises(values), period, WilderAlpha(period));
    FallsVanish(values);
  }

  /** The extremes are one-sided charts, however long ago the moves were. */
  lemma RsiExtremes(values: seq<real>, period: int)
    requires 1 < period < |values|
    ensures Rsi(values, period) == Some(100.0) <==> NeverFalls(values) && !NeverRises(values)
    ensures Rsi(values, period) == Some(0.0) <==> NeverRises(values) && !NeverFalls(values)
    ensures NeverRises(values) && NeverFalls(values) ==> Rsi(values, period) == Some(50.0)
  {
    AveragesVanish(values, period);
    var gain, loss := AverageRise(values, period), AverageFall(values, period);
    RsiIsShare(gain, loss);
    if gain + loss > 0.0 {
      ShareWithin(gain, gain + loss);
    }
  }

  // ---- ATR ----

  function TrueRange(candles: seq<Bar>, i: nat): real
    requires i < |candles|
  {
    var c := candles[i];
    if i == 0 then c.high - c.low
    else
      var previousClose := candles[i - 1].close;
      MaxReal(c.high - c.low, MaxReal(Abs(c.high - previousClose), Abs(c.low - previousClose)))
  }

  function TrueRanges(candles: seq<Bar>): (s: seq<real>)
    ensures |s| == |candles| && forall i :: 0 <= i < |s| ==> s[i] == TrueRange(candles, i)
  {
    seq(|candles|, i requires 0 <= i < |candles| => TrueRange(candles, i))
  }

  function Atr(candles: seq<Bar>, period: int): Option<real> {
    if period <= 0 || |candles| < period then None
    else Some(Wilder(TrueRanges(candles), period))
  }

  method AtrWilder(candles: seq<Bar>, period: int) returns (r: Option<real>)
    ensures r == Atr(candles, period)
  {
    if period <= 0 || |candles| < period {
      return None;
    }
    var trs: seq<real> := [];
    for index := 0 to |candles|
      invariant trs == TrueRanges(candles)[..index]
    {
      var candle := candles[index];
      var tr := candle.high - candle.low;
      if index > 0 {
        var previousClose := candles[index - 1].close;
        tr := MaxReal(tr, MaxReal(Abs(candle.high - previousClose), Abs(candle.low - previousClose)));
      }
      assert tr == TrueRange(candles, index) == TrueRanges(candles)[index];
      assert TrueRanges(candles)[..index + 1] == TrueRanges(candles)[..index] + [TrueRanges(candles)[index]];
      trs := trs + [tr];
    }
    assert trs == TrueRanges(candles);
    var atr := Sum(trs[..period]) / period as real;
    for i := period to |trs|
      invariant atr == Wilder(trs[..i], period)
    {
      assert trs[..i + 1] == trs[..i] + [trs[i]];
      atr := UpdateAverage(atr, trs[i], period, trs[..i]);
    }
    assert trs[..|trs|] == trs;
    return Some(atr);
  }

  ghost predicate ProperBars(candles: seq<Bar>) {
    forall i :: 0 <= i < |candles| ==> candles[i].low <= candles[i].close <= candles[i].high
  }

  /** The true range is how far price travelled from the previous close to cover the bar. */
  lemma TrueRangeSpans(candles: seq<Bar>, i: nat)
    requires ProperBars(candles) && i < |candles|
    ensures TrueRange(candles, i) >= candles[i].high - candles[i].low >= 0.0
    ensures i > 0 ==> TrueRange(candles, i)
                      == MaxReal(candles[i].high, candles[i - 1].close) - MinReal(candles[i].low, candles[i - 1].close)
  {
  }

  /** The ATR is never negative, and vanishes only when price never moved. */
  lemma AtrVanishesWhenStill(candles: seq<Bar>, period: int)
    requires ProperBars(candles) && 1 < period <= |candles|
    ensures Atr(candles, period).value >= 0.0
    ensures Atr(candles, period) == Some(0.0)
            <==> forall i :: 0 <= i < |candles| ==> candles[i].high == candles[i].low == candles[0].close
  {
    WilderAlphaIsFraction(period);
    var trs := TrueRanges(candles);
    forall i | 0 <= i < |candles|
      ensures trs[i] >= 0.0
    {
      TrueRangeSpans(candles, i);
    }
    SmoothVanishes(trs, period, WilderAlpha(period));
    if AllZero(trs) {
      for i := 0 to |candles|
        invariant forall j :: 0 <= j < i ==> candles[j].high == candles[j].low == candles[0].close
      {
        TrueRangeSpans(candles, i);
        assert trs[i] == 0.0;
      }
    }
  }

  lemma AtrNonNegative(candles: seq<Bar>, period: int)
    requires ProperBars(candles) && 0 < period <= |candles|
    ensures Atr(candles, period).value >= 0.0
  {
    forall i | 0 <= i < |candles|
      ensures TrueRanges(candles)[i] >= 0.0
    {
      TrueRangeSpans(candles, i);
    }
    WilderNonNegative(TrueRanges(candles), period);
  }

  // ---- VWAP ----

  function Turnover(c: Bar): real {
    Times((c.high + c.low + c.close) / 3.0, Max(0, c.volume) as real)
  }

  function TotalVolume(candles: seq<Bar>): (v: nat) {
    if candles == [] then 0 else TotalVolume(candles[..|candles| - 1]) + Max(0, candles[|candles| - 1].volume)
  }

  function TotalTurnover(candles: seq<Bar>): real {
    if candles == [] then 0.0 else TotalTurnover(candles[..|candles| - 1]) + Turnover(candles[|candles| - 1])
  }

  method Vwap(candles: seq<Bar>) returns (r: Option<real>)
    ensures r == if TotalVolume(candles) == 0 then None else Some(TotalTurnover(candles) / TotalVolume(candles) as real)
  {
    var totalVolume := TotalVolume(candles);
    if totalVolume <= 0 {
      return None;
    }
    var numerator := 0.0;
    for i := 0 to |candles|
      invariant numerator == TotalTurnover(candles[..i])
    {
      assert candles[..i + 1][..i] == candles[..i];
      var volume := Max(0, candles[i].volume);
      var typicalPrice := (candles[i].high + candles[i].low + candles[i].close) / 3.0;
      numerator := numerator + typicalPrice * volume as real;
    }
    assert candles[..|candles|] == candles;
    return Some(numerator / totalVolume as real);
  }

  ghost predicate TradedWithin(candles: seq<Bar>, lo: real, hi: real) {
    forall i :: 0 <= i < |candles| && candles[i].volume > 0 ==> lo <= candles[i].low && candles[i].high <= hi
  }

  lemma TurnoverWithin(typical: real, volume: real, lo: real, hi: real)
    requires volume == 0.0 || lo <= typical <= hi
    requires volume >= 0.0
    ensures Times(lo, volume) <= Times(typical, volume) <= Times(hi, volume)
  {
    assert Times(typical, volume) - lo * volume == (typical - lo) * volume;
    assert hi * volume - Times(typical, volume) == (hi - typical) * volume;
  }

  lemma AddBounds(t: real, v: real, u: real, w: real, lo: real, hi: real)
    requires Times(lo, v) <= t <= Times(hi, v) && Times(lo, w) <= u <= Times(hi, w)
    ensures Times(lo, v + w) <= t + u <= Times(hi, v + w)
  {
  }

  lemma {:induction false} TotalTurnoverWithin(candles: seq<Bar>, lo: real, hi: real)
    requires ProperBars(candles) && TradedWithin(candles, lo, hi)
    ensures Times(lo, TotalVolume(candles) as real) <= TotalTurnover(candles) <= Times(hi, TotalVolume(candles) as real)
  {
    if candles != [] {
      var n := |candles| - 1;
      assert forall i :: 0 <= i < n ==> candles[..n][i] == candles[i];
      TotalTurnoverWithin(candles[..n], lo, hi);
      var c := candles[n];
      TurnoverWithin((c.high + c.low + c.close) / 3.0, Max(0, c.volume) as real, lo, hi);
      AddBounds(TotalTurnover(candles[..n]), TotalVolume(candles[..n]) as real, Turnover(c), Max(0, c.volume) as real, lo, hi);
      assert TotalVolume(candles) as real == TotalVolume(candles[..n]) as real + Max(0, c.volume) as real;
    }
  }

  lemma AverageWithin(t: real, v: real, lo: real, hi: real)
    requires v > 0.0 && Times(lo, v) <= t <= Times(hi, v)
    ensures lo <= t / v <= hi
  {
    QuotientWithin(t, v, lo, hi);
  }

  /** The VWAP lies between any bounds on the bars that traded. */
  lemma VwapWithin(candles: seq<Bar>, lo: real, hi: real)
    requires ProperBars(candles) && TradedWithin(candles, lo, hi) && TotalVolume(candles) > 0
    ensures lo <= TotalTurnover(candles) / TotalVolume(candles) as real <= hi
  {
    TotalTurnoverWithin(candles, lo, hi);
    AverageWithin(TotalTurnover(candles), TotalVolume(candles) as real, lo, hi);
  }

  // ---- MACD ----

  /** The MACD line over the bars where both averages exist. */
  function MacdLine(closes: seq<real>): (m: seq<real>)
    ensures |m| == Max(0, |closes| - 25)
  {
    if |closes| < 26 then []
    else MacdLine(closes[..|closes| - 1]) + [Smooth(closes, 12, EmaAlpha(12)) - Smooth(closes, 26, EmaAlpha(26))]
  }

  /** The histogram over the bars where the signal line exists. */
  function HistogramOf(macd: seq<real>): (h: seq<real>)
    ensures |h| == Max(0, |macd| - 8)
  {
    if |macd| < 9 then []
    else HistogramOf(macd[..|macd| - 1]) + [macd[|macd| - 1] - Smooth(macd, 9, EmaAlpha(9))]
  }

  function Histogram(closes: seq<real>): seq<real> {
    HistogramOf(MacdLine(closes))
  }

  lemma MacdLineAppend(closes: seq<real>, i: nat)
    requires i < |closes|
    ensures MacdLine(closes[..i + 1])
            == if EmaAt(closes, 12, i).Some? && EmaAt(closes, 26, i).Some?
               then MacdLine(closes[..i]) + [EmaAt(closes, 12, i).value - EmaAt(closes, 26, i).value]
               else MacdLine(closes[..i])
  {
    assert closes[..i + 1][..i] == closes[..i];
  }

  method MacdValues(closes: seq<real>) returns (macd: seq<real>)
    ensures macd == MacdLine(closes)
  {
    var fast := EmaSeries(closes, 12);
    var slow := EmaSeries(closes, 26);
    macd := [];
    for i := 0 to |closes|
      invariant macd == MacdLine(closes[..i])
    {
      MacdLineAppend(closes, i);
      if fast[i].Some? && slow[i].Some? {
        macd := macd + [fast[i].value - slow[i].value];
      }
    }
    assert closes[..|closes|] == closes;
  }

  lemma HistogramAppend(macd: seq<real>, i: nat)
    requires i < |macd|
    ensures HistogramOf(macd[..i + 1])
            == if EmaAt(macd, 9, i).Some? then HistogramOf(macd[..i]) + [macd[i] - EmaAt(macd, 9, i).value]
               else HistogramOf(macd[..i])
  {
    assert macd[..i + 1][..i] == macd[..i];
  }

  method ValidHistogram(macd: seq<real>) returns (histogram: seq<real>)
    ensures histogram == HistogramOf(macd)
  {
    var signal: seq<Option<real>> := [];
    if macd != [] {
      signal := EmaSeries(macd, 9);
    }
    histogram := [];
    for i := 0 to |macd|
      invariant histogram == HistogramOf(macd[..i])
    {
      HistogramAppend(macd, i);
      if signal[i].Some? {
        histogram := histogram + [macd[i] - signal[i].value];
      }
    }
    assert macd[..|macd|] == macd;
  }

  /** The `k`-th element from the end, counting from one. */
  function FromEnd(xs: seq<real>, k: nat): Option<real>
    requires k > 0
  {
    if |xs| < k then None else Some(xs[|xs| - k])
  }

  /** Python's `values[:-k]`. */
  function DropLast(values: seq<real>, k: nat): seq<real> {
    values[..Max(0, |values| - k)]
  }

  datatype Momentum = Momentum(
    histogram: Option<real>,
    histogramPrev: Option<real>,
    histogramPrev2: Option<real>,
    rsi: Option<real>,
    rsiPrev: Option<real>,
    rsiPrev2: Option<real>,
    crossedAboveZero: bool,
    crossedBelowZero: bool,
    expandingPositive: bool,
    expandingNegative: bool,
    crossedAbove55: bool,
    crossedBelow45: bool)

  ghost predicate Crossed(before: Option<real>, after: Option<real>, level: real) {
    before.Some? && after.Some? && before.value <= level < after.value
  }

  ghost function Negated(x: Option<real>): Option<real> {
    if x.None? then None else Some(-x.value)
  }

  /** What the flags say: a value passed a level between the previous bar and this one, or grew away
      from zero; no flag is raised while a value is missing, and opposite flags exclude each other. */
  ghost predicate FlagsMatch(m: Momentum) {
    && (m.crossedAboveZero <==> Crossed(m.histogramPrev, m.histogram, 0.0))
    && (m.crossedBelowZero <==> Crossed(Negated(m.histogramPrev), Negated(m.histogram), 0.0))
    && (m.expandingPositive <==> m.histogram.Some? && m.histogramPrev.Some? && m.histogram.value > MaxReal(0.0, m.histogramPrev.value))
    && (m.expandingNegative <==> m.histogram.Some? && m.histogramPrev.Some? && m.histogram.value < MinReal(0.0, m.histogramPrev.value))
    && (m.crossedAbove55 <==> Crossed(m.rsiPrev, m.rsi, 55.0))
    && (m.crossedBelow45 <==> Crossed(Negated(m.rsiPrev), Negated(m.rsi), -45.0))
  }

  method ComputeMomentum(closes: seq<real>) returns (m: Momentum)
    ensures m.histogram == FromEnd(Histogram(closes), 1)
    ensures m.histogramPrev == FromEnd(Histogram(closes), 2)
    ensures m.histogramPrev2 == FromEnd(Histogram(closes), 3)
    ensures m.rsi == Rsi(closes, 14)
    ensures m.rsiPrev == Rsi(DropLast(closes, 1), 14)
    ensures m.rsiPrev2 == Rsi(DropLast(closes, 2), 14)
    ensures FlagsMatch(m)
  {
    var macd := MacdValues(closes);
    var histogram := ValidHistogram(macd);
    var now, prev, prev2 := FromEnd(histogram, 1), FromEnd(histogram, 2), FromEnd(histogram, 3);
    var rsi := RsiWilder(closes, 14);
    var rsiPrev := RsiWilder(DropLast(closes, 1), 14);
    var rsiPrev2 := RsiWilder(DropLast(closes, 2), 14);
    m := Momentum(
      now, prev, prev2, rsi, rsiPrev, rsiPrev2,
      prev.Some? && now.Some? && prev.value <= 0.0 < now.value,
      prev.Some? && now.Some? && prev.value >= 0.0 > now.value,
      now.Some? && prev.Some? && now.value > 0.0 && now.value > prev.value,
      now.Some? && prev.Some? && now.value < 0.0 && now.value < prev.value,
      rsi.Some? && rsiPrev.Some? && rsiPrev.value <= 55.0 < rsi.value,
      rsi.Some? && rsiPrev.Some? && rsiPrev.value >= 45.0 > rsi.value);
  }

  /** Causality: without its last bar the chart's histogram is the same, minus its last value. */
  lemma HistogramIsCausal(closes: seq<real>)
    requires closes != []
    ensures Histogram(DropLast(closes, 1)) == DropLast(Histogram(closes), 1)
  {
    if |closes| < 26 {
    } else {
      var macd := MacdLine(closes);
      assert macd[..|macd| - 1] == MacdLine(closes[..|closes| - 1]);
      if |macd| < 9 {
      } else {
        assert HistogramOf(macd)[..|HistogramOf(macd)| - 1] == HistogramOf(macd[..|macd| - 1]);
      }
    }
  }

  /** The reported previous values are those a call made one or two bars earlier reported as current. */
  lemma PreviousValuesAreEarlierValues(closes: seq<real>)
    ensures |closes| >= 1 ==> FromEnd(Histogram(closes), 2) == FromEnd(Histogram(DropLast(closes, 1)), 1)
    ensures |closes| >= 2 ==> FromEnd(Histogram(closes), 3) == FromEnd(Histogram(DropLast(closes, 2)), 1)
  {
    if |closes| >= 1 {
      HistogramIsCausal(closes);
    }
    if |closes| >= 2 {
      HistogramIsCausal(DropLast(closes, 1));
      assert DropLast(DropLast(closes, 1), 1) == DropLast(closes, 2);
    }
  }

  // ---- the constants, seen on simple charts ----

  lemma AlphaTimes(period: nat)
    ensures EmaAlpha(period) * (period as real + 1.0) == 2.0
  {
  }

  /** On prices that climb by `d` a bar every EMA is exactly half of `period - 1` bars behind. */
  lemma EmaLagsRamp(values: seq<real>, period: int, i: nat, a: real, d: real)
    requires Ramp(values, a, d) && 0 < period <= i + 1 <= |values|
    ensures EmaAt(values, period, i) == Some(values[i] - d * (period as real - 1.0) / 2.0)
  {
    var seen := values[..i + 1];
    assert forall j :: 0 <= j < |seen| ==> seen[j] == values[j];
    AlphaTimes(period);
    SmoothLags(seen, period, EmaAlpha(period), a, d, d * (period as real - 1.0) / 2.0);
  }

  lemma SevenBars(x: real, d: real)
    ensures (x - d * (12.0 - 1.0) / 2.0) - (x - d * (26.0 - 1.0) / 2.0) == 7.0 * d
  {
  }

  lemma MacdOfPrefix(closes: seq<real>, a: real, d: real)
    requires Ramp(closes, a, d) && |closes| >= 26
    ensures Smooth(closes, 12, EmaAlpha(12)) - Smooth(closes, 26, EmaAlpha(26)) == 7.0 * d
  {
    var n := |closes| - 1;
    AlphaTimes(12);
    AlphaTimes(26);
    SmoothLags(closes, 12, EmaAlpha(12), a, d, d * (12.0 - 1.0) / 2.0);
    SmoothLags(closes, 26, EmaAlpha(26), a, d, d * (26.0 - 1.0) / 2.0);
    SevenBars(closes[n], d);
  }

  /** There the MACD line stands at seven times the slope from the 26th bar on: the difference of the two lags. */
  lemma {:induction false} MacdOfRamp(closes: seq<real>, a: real, d: real)
    requires Ramp(closes, a, d)
    ensures forall k :: 0 <= k < |MacdLine(closes)| ==> MacdLine(closes)[k] == 7.0 * d
  {
    if |closes| >= 26 {
      MacdOfRamp(closes[..|closes| - 1], a, d);
      MacdOfPrefix(closes, a, d);
    }
  }

  lemma {:induction false} HistogramOfLevel(macd: seq<real>, level: real)
    requires forall k :: 0 <= k < |macd| ==> macd[k] == level
    ensures forall k :: 0 <= k < |HistogramOf(macd)| ==> HistogramOf(macd)[k] == 0.0
  {
    if |macd| >= 9 {
      HistogramOfLevel(macd[..|macd| - 1], level);
      EmaAlphaIsFraction(9);
      SmoothWithin(macd, 9, EmaAlpha(9), level, level);
    }
  }

  /** And the histogram, which exists from the 34th bar on, is zero: a steady trend has no acceleration. */
  lemma HistogramOfRamp(closes: seq<real>, a: real, d: real)
    requires Ramp(closes, a, d)
    ensures |Histogram(closes)| == Max(0, |closes| - 33)
    ensures forall k :: 0 <= k < |Histogram(closes)| ==> Histogram(closes)[k] == 0.0
  {
    MacdOfRamp(closes, a, d);
    HistogramOfLevel(MacdLine(closes), 7.0 * d);
  }

  /** A rise and a fall are the two parts of a price change. */
  lemma MovesAre(values: seq<real>, i: nat)
    requires i + 1 < |values|
    ensures Rise(values, i) - Fall(values, i) == values[i + 1] - values[i]
    ensures Rise(values, i) == 0.0 || Fall(values, i) == 0.0
    ensures Rise(values, i) >= 0.0 && Fall(values, i) >= 0.0
  {
  }

  lemma NextTimesPeriod(avg: real, x: real, p: real, alpha: real)
    requires p > 0.0 && alpha == 1.0 / p
    ensures Blend(avg, x, alpha) * p == avg * (p - 1.0) + x
  {
    assert alpha * p == 1.0;
    assert Blend(avg, x, alpha) * p == (x - avg) * (alpha * p) + avg * p;
  }

  lemma ShareTimes(x: real, total: real)
    requires total > 0.0
    ensures x / total * total == x
  {
  }

  /** Wilder's average starts as the mean of the first `period` values. */
  lemma WilderSeed(xs: seq<real>, period: nat)
    requires 0 < period == |xs|
    ensures Wilder(xs, period) * period as real == Sum(xs)
  {
    ShareTimes(Sum(xs), period as real);
  }

  /** Then each time the old average counts `period - 1` times and the new value once. */
  lemma WilderSteps(xs: seq<real>, x: real, period: nat, avg: real, p: real) returns (next: real)
    requires 0 < period <= |xs| && avg == Wilder(xs, period) && p == period as real
    ensures next == Wilder(xs + [x], period) && next * p == avg * (p - 1.0) + x
  {
    SmoothAppend(xs, x, period, WilderAlpha(period));
    next := Wilder(xs + [x], period);
    NextTimesPeriod(avg, x, p, WilderAlpha(period));
  }

  /** The RSI is the share of the average rise in both averages, in percent, and 50 when nothing moved. */
  lemma RsiMeans(values: seq<real>, period: int)
    requires 0 < period < |values|
    ensures var gain, loss, rsi := AverageRise(values, period), AverageFall(values, period), Rsi(values, period).value;
            if gain + loss > 0.0 then rsi * (gain + loss) == 100.0 * gain else rsi == 50.0
  {
    var gain, loss := AverageRise(values, period), AverageFall(values, period);
    RsiIsShare(gain, loss);
    if gain + loss > 0.0 {
      ShareTimes(100.0 * gain, gain + loss);
    }
  }

  lemma ThirdTimes(x: real, y: real)
    ensures Times(x / 3.0, y) * 3.0 == x * y
  {
    assert Times(x / 3.0, y) * 3.0 == (x / 3.0 * 3.0) * y;
  }

  /** One bar's turnover is its typical price times its volume, negative volumes counting as none, and both add up
      over stretches of bars. */
  lemma {:induction false} TurnoverAdds(a: seq<Bar>, b: seq<Bar>, c: Bar)
    ensures TotalTurnover([c]) * 3.0 == (c.high + c.low + c.close) * TotalVolume([c]) as real
    ensures TotalVolume([c]) == if c.volume > 0 then c.volume else 0
    ensures TotalTurnover(a + b) == TotalTurnover(a) + TotalTurnover(b) && TotalVolume(a + b) == TotalVolume(a) + TotalVolume(b)
  {
    assert [c][..0] == [];
    ThirdTimes(c.high + c.low + c.close, Max(0, c.volume) as real);
    if b == [] {
      assert a + b == a;
    } else {
      TurnoverAdds(a, b[..|b| - 1], c);
      assert (a + b)[..|a + b| - 1] == a + b[..|b| - 1];
    }
  }
}
