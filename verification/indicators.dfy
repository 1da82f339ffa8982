/** The two indicators a stock computes for the bar at a given position of its
    close series: the relative strength index over close-to-close changes and
    a windowed exponential moving average. Both return the sentinel 0.0 when
    there is too little history before the bar. */
module Indicators {
  import opened Series
  import opened RealArith

  /** The change in close entering bar k. */
  function Delta(cs: seq<real>, k: int): real
    requires 1 <= k < |cs|
  {
    cs[k] - cs[k - 1]
  }

  /** The positive part of a change, `max(change, 0)`. */
  function Gain(d: real): (g: real)
    ensures g >= 0.0
    ensures g == 0.0 <==> d <= 0.0
  {
    if d > 0.0 then d else 0.0
  }

  /** The negated negative part of a change, `max(-change, 0)`. */
  function Loss(d: real): (l: real)
    ensures l >= 0.0
    ensures l == 0.0 <==> d >= 0.0
  {
    if d < 0.0 then -d else 0.0
  }

  /** Sum of the gains of the changes entering bars lo .. hi-1. */
  function GainSum(cs: seq<real>, lo: int, hi: int): (s: real)
    requires 1 <= lo <= hi <= |cs|
    ensures s >= 0.0
    decreases hi - lo
  {
    if lo == hi then 0.0 else GainSum(cs, lo, hi - 1) + Gain(Delta(cs, hi - 1))
  }

  /** Sum of the losses of the changes entering bars lo .. hi-1. */
  function LossSum(cs: seq<real>, lo: int, hi: int): (s: real)
    requires 1 <= lo <= hi <= |cs|
    ensures s >= 0.0
    decreases hi - lo
  {
    if lo == hi then 0.0 else LossSum(cs, lo, hi - 1) + Loss(Delta(cs, hi - 1))
  }

  /** No close in bars lo .. hi-1 is below the close before it. */
  predicate NoDrops(cs: seq<real>, lo: int, hi: int)
    requires 1 <= lo <= hi <= |cs|
  {
    forall k :: lo <= k < hi ==> Delta(cs, k) >= 0.0
  }

  /** No close in bars lo .. hi-1 is above the close before it. */
  predicate NoRises(cs: seq<real>, lo: int, hi: int)
    requires 1 <= lo <= hi <= |cs|
  {
    forall k :: lo <= k < hi ==> Delta(cs, k) <= 0.0
  }

  /** The gain sum vanishes exactly when no change in the window is a rise. */
  lemma {:induction false} GainSumZeroIff(cs: seq<real>, lo: int, hi: int)
    requires 1 <= lo <= hi <= |cs|
    ensures GainSum(cs, lo, hi) == 0.0 <==> NoRises(cs, lo, hi)
    decreases hi - lo
  {
    if lo < hi {
      GainSumZeroIff(cs, lo, hi - 1);
    }
  }

  /** The loss sum vanishes exactly when no change in the window is a drop. */
  lemma {:induction false} LossSumZeroIff(cs: seq<real>, lo: int, hi: int)
    requires 1 <= lo <= hi <= |cs|
    ensures LossSum(cs, lo, hi) == 0.0 <==> NoDrops(cs, lo, hi)
    decreases hi - lo
  {
    if lo < hi {
      LossSumZeroIff(cs, lo, hi - 1);
    }
  }

  /** The gain and loss sums are additive over adjacent ranges of bars. */
  lemma {:induction false} SumsSplit(cs: seq<real>, lo: int, mid: int, hi: int)
    requires 1 <= lo <= mid <= hi <= |cs|
    ensures GainSum(cs, lo, hi) == GainSum(cs, lo, mid) + GainSum(cs, mid, hi)
    ensures LossSum(cs, lo, hi) == LossSum(cs, lo, mid) + LossSum(cs, mid, hi)
    decreases hi - mid
  {
    if mid < hi {
      SumsSplit(cs, lo, mid, hi - 1);
    }
  }

  /** When every close in bars lo .. hi-1 drops by the same amount, the loss
      sum is that amount once per bar. */
  lemma {:induction false} LossSumOfSteadyDrop(cs: seq<real>, lo: int, hi: int, step: real)
    requires 1 <= lo <= hi <= |cs| && step > 0.0
    requires forall k :: lo <= k < hi ==> Delta(cs, k) == -step
    ensures LossSum(cs, lo, hi) == (hi - lo) as real * step
    decreases hi - lo
  {
    if lo < hi {
      LossSumOfSteadyDrop(cs, lo, hi - 1, step);
      assert (hi - lo) as real * step == (hi - 1 - lo) as real * step + step;
    }
  }

  /** First bar whose incoming change falls in the RSI window of bar `index`. */
  function RsiStart(index: int, period: int): int
  {
    index - period + 1
  }

  /** The average gain over the RSI window; needs `period` bars of history. */
  function AverageGain(cs: seq<real>, index: int, period: int): (g: real)
    requires period >= 1 && period <= index < |cs|
    ensures g >= 0.0
  {
    GainSum(cs, RsiStart(index, period), index + 1) / period as real
  }

  /** The average loss over the RSI window; needs `period` bars of history. */
  function AverageLoss(cs: seq<real>, index: int, period: int): (l: real)
    requires period >= 1 && period <= index < |cs|
    ensures l >= 0.0
  {
    LossSum(cs, RsiStart(index, period), index + 1) / period as real
  }

  /** `100 - 100/(1 + g/l)` is the share of gains in all movement, scaled to 100. */
  lemma RsFormula(g: real, l: real)
    requires g >= 0.0 && l > 0.0
    ensures 100.0 - 100.0 / (1.0 + g / l) == 100.0 * g / (g + l)
  {
    var d := g + l;
    var rs := g / l;
    assert rs * l == g;
    var k := 1.0 + rs;
    assert k * l == d;
    var a := 100.0 / k;
    assert a * k == 100.0;
    assert a * d == 100.0 * l by {
      assert a * (k * l) == (a * k) * l;
    }
    var b := 100.0 * g / d;
    assert b * d == 100.0 * g;
    var c := 100.0 - a;
    assert c * d == 100.0 * d - a * d;
    assert 100.0 * d - a * d == 100.0 * g;
    CancelFactor(c, b, d);
  }

  /** Relative strength index of bar `index` over `period` changes, with the
      sentinel 0.0 when fewer than `period` changes precede the bar. */
  function Rsi(cs: seq<real>, index: int, period: int): (r: real)
    requires 0 <= index < |cs| && period >= 1
    ensures 0.0 <= r <= 100.0
    ensures index < period ==> r == 0.0
    ensures index >= period ==>
      (r == 100.0 <==> NoDrops(cs, RsiStart(index, period), index + 1))
    ensures index >= period ==>
      (r == 0.0 <==> NoRises(cs, RsiStart(index, period), index + 1)
                     && !NoDrops(cs, RsiStart(index, period), index + 1))
  {
    if index < period then 0.0
    else
      var lo := RsiStart(index, period);
      var avgGain := AverageGain(cs, index, period);
      var avgLoss := AverageLoss(cs, index, period);
      GainSumZeroIff(cs, lo, index + 1);
      LossSumZeroIff(cs, lo, index + 1);
      if avgLoss == 0.0 then 100.0
      else
        RsFormula(avgGain, avgLoss);
        100.0 - 100.0 / (1.0 + avgGain / avgLoss)
  }

  /** When the window has losses, the RSI is the proportion of gains in the
      total movement: 100 * avgGain / (avgGain + avgLoss). */
  lemma RsiAsGainShare(cs: seq<real>, index: int, period: int)
    requires period >= 1 && period <= index < |cs|
    requires AverageLoss(cs, index, period) > 0.0
    ensures var g := AverageGain(cs, index, period);
            var l := AverageLoss(cs, index, period);
            Rsi(cs, index, period) == 100.0 * g / (g + l)
            && Rsi(cs, index, period) < 100.0
  {
  }

  /** The straight loop of `Stock.calculateRSI`: accumulate gains and losses over the
      window, divide by the period, and apply the RSI formula. */
  method CalculateRsi(cs: seq<real>, index: int, period: int) returns (rsi: real)
    requires 0 <= index < |cs| && period >= 1
    ensures rsi == Rsi(cs, index, period)
  {
    if index < period {
      return 0.0;
    }
    var avgGain := 0.0;
    var avgLoss := 0.0;
    var i := index - period + 1;
    while i <= index
      invariant RsiStart(index, period) <= i <= index + 1
      invariant avgGain == GainSum(cs, RsiStart(index, period), i)
      invariant avgLoss == LossSum(cs, RsiStart(index, period), i)
    {
      var change := cs[i] - cs[i - 1];
      avgGain := avgGain + Gain(change);
      avgLoss := avgLoss + Loss(change);
      i := i + 1;
    }
    avgGain := avgGain / period as real;
    avgLoss := avgLoss / period as real;
    if avgLoss == 0.0 {
      return 100.0;
    }
    var rs := avgGain / avgLoss;
    rsi := 100.0 - 100.0 / (1.0 + rs);
  }

  /** The smoothing factor of a `period`-bar EMA. */
  function Alpha(period: int): (a: real)
    requires period >= 1
    ensures 0.0 < a <= 1.0
  {
    2.0 / (period + 1) as real
  }

  /** One smoothing step: blend the next close into the running average. */
  function Blend(ema: real, close: real, alpha: real): real
  {
    close * alpha + ema * (1.0 - alpha)
  }

  /** A blend with a factor in [0,1] stays between the two things blended. */
  lemma BlendBetween(ema: real, close: real, alpha: real, lo: real, hi: real)
    requires 0.0 <= alpha <= 1.0
    requires lo <= ema <= hi && lo <= close <= hi
    ensures lo <= Blend(ema, close, alpha) <= hi
  {
    WeightedBetween(close, ema, alpha, lo, hi);
  }

  /** The EMA of a window, seeded with its first close and blended forward. */
  function EmaFold(w: seq<real>, alpha: real): (e: real)
    requires |w| >= 1 && 0.0 <= alpha <= 1.0
    ensures Min(w) <= e <= Max(w)
    decreases |w|
  {
    if |w| == 1 then w[0]
    else
      var front := w[..|w| - 1];
      var e := EmaFold(front, alpha);
      assert forall k :: 0 <= k < |front| ==> front[k] == w[k];
      BlendBetween(e, w[|w| - 1], alpha, Min(w), Max(w));
      Blend(e, w[|w| - 1], alpha)
  }

  /** Folding one more close of a window is one more blend. */
  lemma EmaFoldExtend(w: seq<real>, i: int, alpha: real)
    requires 1 <= i < |w| && 0.0 <= alpha <= 1.0
    ensures EmaFold(w[..i + 1], alpha) == Blend(EmaFold(w[..i], alpha), w[i], alpha)
  {
    assert w[..i + 1][..i] == w[..i];
  }

  /** The `period` closes ending at bar `index`. */
  function EmaWindow(cs: seq<real>, index: int, period: int): (w: seq<real>)
    requires period >= 1 && period - 1 <= index < |cs|
    ensures |w| == period
    ensures forall k :: 0 <= k < period ==> w[k] == cs[index - period + 1 + k]
  {
    cs[index - period + 1 .. index + 1]
  }

  /** Windowed EMA of bar `index`: re-seeded at the window's first close on
      every call, with the sentinel 0.0 when fewer than `period` bars end at
      `index`. The result always lies within the window's price range. */
  function Ema(cs: seq<real>, index: int, period: int): (r: real)
    requires 0 <= index < |cs| && period >= 1
    ensures index < period - 1 ==> r == 0.0
    ensures index >= period - 1 ==>
      Min(EmaWindow(cs, index, period)) <= r <= Max(EmaWindow(cs, index, period))
  {
    if index < period - 1 then 0.0
    else EmaFold(EmaWindow(cs, index, period), Alpha(period))
  }

  /** The smoothing loop of `Stock.calculateEMA`: seed with the first close, then
      blend every later close in. */
  method SmoothWindow(closing: seq<real>, alpha: real) returns (ema: real)
    requires |closing| >= 1 && 0.0 <= alpha <= 1.0
    ensures ema == EmaFold(closing, alpha)
  {
    ema := closing[0];
    var i := 1;
    while i < |closing|
      invariant 1 <= i <= |closing|
      invariant ema == EmaFold(closing[..i], alpha)
    {
      EmaFoldExtend(closing, i, alpha);
      ema := Blend(ema, closing[i], alpha);
      i := i + 1;
    }
    assert closing[..i] == closing;
  }

  /** `Stock.calculateEMA`: the sentinel check, the window extraction and the loop. */
  method CalculateEma(cs: seq<real>, index: int, period: int) returns (ema: real)
    requires 0 <= index < |cs| && period >= 1
    ensures ema == Ema(cs, index, period)
  {
    if index < period - 1 {
      return 0.0;
    }
    var closing := cs[index - period + 1 .. index + 1];
    var alpha := 2.0 / (period + 1) as real;
    assert closing == EmaWindow(cs, index, period) && alpha == Alpha(period);
    ema := SmoothWindow(closing, alpha);
  }

  /** The EMA of a window whose closes are all c is c. */
  lemma EmaOfConstantWindow(cs: seq<real>, index: int, period: int, c: real)
    requires period >= 1 && period - 1 <= index < |cs|
    requires Constant(EmaWindow(cs, index, period), c)
    ensures Ema(cs, index, period) == c
  {
    var w := EmaWindow(cs, index, period);
    assert w[0] == c;
    assert Min(w) == c && Max(w) == c;
  }

  /** A one-bar EMA is the bar's own close. */
  lemma EmaPeriodOne(cs: seq<real>, index: int)
    requires 0 <= index < |cs|
    ensures Ema(cs, index, 1) == cs[index]
  {
  }

  /** Each call is independent: the EMA depends on nothing but the closes in
      its own window, whatever came before it. */
  lemma EmaOnlyReadsWindow(cs: seq<real>, cs': seq<real>, index: int, period: int)
    requires period >= 1 && period - 1 <= index < |cs| && index < |cs'|
    requires forall k :: index - period + 1 <= k <= index ==> cs[k] == cs'[k]
    ensures Ema(cs, index, period) == Ema(cs', index, period)
  {
    assert EmaWindow(cs, index, period) == EmaWindow(cs', index, period);
  }

  /** The EMA lags a new low: when the bar's close is below every earlier
      close of a window of at least two bars, the average is above the close. */
  lemma EmaAboveNewLow(cs: seq<real>, index: int, period: int)
    requires period >= 2 && period - 1 <= index < |cs|
    requires forall k :: index - period + 1 <= k < index ==> cs[k] > cs[index]
    ensures Ema(cs, index, period) > cs[index]
  {
    var w := EmaWindow(cs, index, period);
    var a := Alpha(period);
    var c := cs[index];
    assert w[|w| - 1] == c;
    var front := w[..|w| - 1];
    var e := EmaFold(front, a);
    var j :| 0 <= j < |front| && Min(front) == front[j];
    assert front[j] == w[j];
    assert w[j] == cs[index - period + 1 + j];
    assert e > c;
    AlphaBelowOne(period);
    BlendAboveClose(e, c, a);
    assert EmaFold(w, a) == Blend(e, c, a);
  }

  /** Blending a close into a higher average with a factor below one leaves
      the result above the close. */
  lemma BlendAboveClose(ema: real, close: real, alpha: real)
    requires 0.0 <= alpha < 1.0 && ema > close
    ensures Blend(ema, close, alpha) > close
  {
    var beta := 1.0 - alpha;
    ScaleStrict(close, ema, beta);
    SplitByFactor(close, alpha);
  }

  /** A window of two or more bars smooths with a factor below one. */
  lemma AlphaBelowOne(period: int)
    requires period >= 2
    ensures Alpha(period) < 1.0
  {
  }

  /** With positive prices a computed EMA is positive, so it never collides
      with the 0.0 sentinel. */
  lemma EmaPositive(cs: seq<real>, index: int, period: int)
    requires PositivePrices(cs)
    requires period >= 1 && period - 1 <= index < |cs|
    ensures Ema(cs, index, period) > 0.0
  {
  }
}
