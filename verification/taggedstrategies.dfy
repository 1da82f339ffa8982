/** The momentum strategy with "not enough history" kept apart from the
    indicator values. The as-written strategy reads an RSI or EMA of 0.0 as
    "not enough history", but a falling window (drops and no rises) has a
    computed RSI of exactly 0.0 too, so such a bar is passed over, the
    last-bar liquidation included; and a series of at most 14 bars has no
    bar with enough history, so it is never liquidated at all. Here each
    indicator is optional, absent exactly when history is short, only an
    absent indicator skips a bar's signal, and the last bar is liquidated
    whatever its history. */
module TaggedStrategies {
  import opened Series
  import opened Options
  import opened Indicators
  import opened Portfolios
  import opened Strategies

  /** The RSI of bar i, absent exactly when fewer than `period` changes
      precede it; when present it is the computed index in [0, 100]. */
  function RsiValue(cs: seq<real>, i: int, period: int): (r: Option<real>)
    requires 0 <= i < |cs| && period >= 1
    ensures r.None? <==> i < period
    ensures r.Some? ==> 0.0 <= r.value <= 100.0 && r.value == Rsi(cs, i, period)
  {
    if i < period then None else Some(Rsi(cs, i, period))
  }

  /** The EMA of bar i, absent exactly when fewer than `period` closes end at
      it; when present over positive prices it is positive. */
  function EmaValue(cs: seq<real>, i: int, period: int): (r: Option<real>)
    requires 0 <= i < |cs| && period >= 1
    ensures r.None? <==> i < period - 1
    ensures r.Some? ==> r.value == Ema(cs, i, period)
    ensures r.Some? && PositivePrices(cs) ==> r.value > 0.0
  {
    if i < period - 1 then None
    else
      if PositivePrices(cs) then EmaPositive(cs, i, period); Some(Ema(cs, i, period))
      else Some(Ema(cs, i, period))
  }

  /** A bar the corrected strategy passes over: an indicator lacks history. */
  predicate SkippedTagged(cs: seq<real>, i: int)
    requires 0 <= i < |cs|
  {
    RsiValue(cs, i, RsiPeriod).None? || EmaValue(cs, i, EmaPeriod).None?
  }

  /** Only the first 14 bars are passed over. */
  lemma SkippedTaggedIff(cs: seq<real>, i: int)
    requires 0 <= i < |cs|
    ensures SkippedTagged(cs, i) <==> i < RsiPeriod
  {
  }

  /** Over positive prices the as-written strategy passes over a bar with
      enough history exactly when the RSI window falls: no change in it is a
      rise and at least one is a drop. */
  lemma SkippedTwoIffFallingWindow(cs: seq<real>, i: int)
    requires PositivePrices(cs) && RsiPeriod <= i < |cs|
    ensures SkippedTwo(cs, i) <==>
      NoRises(cs, RsiStart(i, RsiPeriod), i + 1) && !NoDrops(cs, RsiStart(i, RsiPeriod), i + 1)
  {
  }

  /** One bar of the corrected momentum strategy. It changes nothing in the
      first 14 bars unless one of them is the last; the last bar always
      liquidates; and wherever the as-written step does not skip, the two
      steps agree. From bar 14 on every bar trades on its signal, a computed
      RSI of 0 included: before the last bar an oversold close under the EMA
      buys the smaller of 10 and what the cash pays for. */
  function StepTwoTagged(cs: seq<real>, i: nat, l: Ledger): (r: Ledger)
    requires i < |cs| && PositivePrices(cs)
    ensures i < RsiPeriod && i < |cs| - 1 ==> r == l
    ensures i < RsiPeriod && i == |cs| - 1 ==> r == FinalLiquidation(l, i, cs[i])
    ensures Solvent(l.portfolio) ==> Solvent(r.portfolio)
    ensures i == |cs| - 1 ==>
      && r.portfolio.shares == 0
      && r.portfolio.balance == NetWorth(l.portfolio, cs[i])
      && |r.log| > 0
      && r.log[|r.log| - 1] == TradeEvent(i, FinalSell, cs[i], 0, r.portfolio.balance)
    ensures !SkippedTwo(cs, i) ==> r == StepTwo(cs, i, l)
    ensures RsiPeriod <= i ==> r == TradeBar(cs, i, Rsi(cs, i, RsiPeriod), Ema(cs, i, EmaPeriod), l)
    ensures RsiPeriod <= i < |cs| - 1 && Solvent(l.portfolio)
            && Rsi(cs, i, RsiPeriod) <= OversoldLevel && cs[i] < Ema(cs, i, EmaPeriod) ==>
      r.portfolio.shares - l.portfolio.shares == MinInt(BuySignal, (l.portfolio.balance / cs[i]).Floor)
  {
    var rsi, ema := RsiValue(cs, i, RsiPeriod), EmaValue(cs, i, EmaPeriod);
    if rsi.Some? && ema.Some? then TradeBar(cs, i, rsi.value, ema.value, l)
    else if i == |cs| - 1 then FinalLiquidation(l, i, cs[i])
    else l
  }

  /** The corrected momentum strategy after its first k bars. */
  function AlgoTwoTaggedAfter(cs: seq<real>, k: nat, init: Portfolio): Ledger
    requires k <= |cs| && PositivePrices(cs)
  {
    if k == 0 then Ledger(init, [])
    else StepTwoTagged(cs, k - 1, AlgoTwoTaggedAfter(cs, k - 1, init))
  }

  /** A solvent trader stays solvent through any number of corrected bars. */
  lemma {:induction false} AlgoTwoTaggedSolvent(cs: seq<real>, k: nat, init: Portfolio)
    requires k <= |cs| && PositivePrices(cs) && Solvent(init)
    ensures Solvent(AlgoTwoTaggedAfter(cs, k, init).portfolio)
  {
    if k > 0 {
      AlgoTwoTaggedSolvent(cs, k - 1, init);
    }
  }

  /** The corrected strategy trades exactly like the as-written one over any
      prefix in which no bar with enough history has a falling RSI window,
      unless the prefix is a whole series too short to have such a bar. */
  lemma {:induction false} AlgoTwoTaggedAgrees(cs: seq<real>, k: nat, init: Portfolio)
    requires k <= |cs| && PositivePrices(cs)
    requires k < |cs| || RsiPeriod < k
    requires forall i :: RsiPeriod <= i < k ==>
      !(NoRises(cs, RsiStart(i, RsiPeriod), i + 1) && !NoDrops(cs, RsiStart(i, RsiPeriod), i + 1))
    ensures AlgoTwoTaggedAfter(cs, k, init) == AlgoTwoAfter(cs, k, init)
  {
    if k > 0 {
      var i := k - 1;
      AlgoTwoTaggedAgrees(cs, i, init);
      var prev := AlgoTwoAfter(cs, i, init);
      if RsiPeriod <= i {
        SkippedTwoIffFallingWindow(cs, i);
        assert !SkippedTwo(cs, i);
      }
      assert StepTwoTagged(cs, i, prev) == StepTwo(cs, i, prev);
    }
  }

  /** The corrected momentum strategy over the whole series. A solvent trader
      stays solvent; an empty series changes nothing; any other series ends
      with every share sold at the last close and the final sale logged, and
      one of at most 14 bars does nothing else. */
  function RunAlgoTwoTagged(cs: seq<real>, init: Portfolio): (r: Ledger)
    requires PositivePrices(cs)
    ensures Solvent(init) ==> Solvent(r.portfolio)
    ensures |cs| == 0 ==> r == Ledger(init, [])
    ensures |cs| > 0 ==>
      && r.portfolio.shares == 0
      && |r.log| > 0
      && r.log[|r.log| - 1] == TradeEvent(|cs| - 1, FinalSell, cs[|cs| - 1], 0, r.portfolio.balance)
    ensures 0 < |cs| <= RsiPeriod ==>
      var worth := NetWorth(init, cs[|cs| - 1]);
      r == Ledger(Portfolio(worth, 0), [TradeEvent(|cs| - 1, FinalSell, cs[|cs| - 1], 0, worth)])
  {
    if 0 < |cs| <= RsiPeriod then
      AlgoTwoTaggedAgrees(cs, |cs| - 1, init);
      AlgoTwoQuietStart(cs, |cs| - 1, init);
      AlgoTwoTaggedAfter(cs, |cs|, init)
    else if Solvent(init) then
      AlgoTwoTaggedSolvent(cs, |cs|, init);
      AlgoTwoTaggedAfter(cs, |cs|, init)
    else AlgoTwoTaggedAfter(cs, |cs|, init)
  }

  /** The corrected run is its last step applied to the bars before it. */
  lemma RunAlgoTwoTaggedLastStep(cs: seq<real>, init: Portfolio)
    requires PositivePrices(cs) && |cs| > 0
    ensures RunAlgoTwoTagged(cs, init) == StepTwoTagged(cs, |cs| - 1, AlgoTwoTaggedAfter(cs, |cs| - 1, init))
  {
  }

  /** The discrepancy in general: when the last bar's RSI window falls and
      shares are held going into it, the as-written strategy keeps them while
      the corrected one sells them. */
  lemma SentinelSkipsLiquidation(cs: seq<real>, init: Portfolio)
    requires PositivePrices(cs) && |cs| > RsiPeriod
    requires var i := |cs| - 1;
      NoRises(cs, RsiStart(i, RsiPeriod), i + 1) && !NoDrops(cs, RsiStart(i, RsiPeriod), i + 1)
    requires AlgoTwoAfter(cs, |cs| - 1, init).portfolio.shares > 0
    ensures RunAlgoTwo(cs, init).portfolio == AlgoTwoAfter(cs, |cs| - 1, init).portfolio
    ensures RunAlgoTwo(cs, init).portfolio.shares > 0
    ensures RunAlgoTwoTagged(cs, init).portfolio.shares == 0
  {
  }

  /** The discrepancy on a bar before the last: when the RSI window only
      falls and the close is under the EMA, the as-written step passes over
      the bar, while the corrected one reads the RSI of 0 as oversold and buys
      the smaller of 10 and what the cash pays for, at least one share when
      the cash covers the close. */
  lemma SentinelSkipsBuy(cs: seq<real>, i: nat, l: Ledger)
    requires PositivePrices(cs) && RsiPeriod <= i < |cs| - 1
    requires NoRises(cs, RsiStart(i, RsiPeriod), i + 1) && !NoDrops(cs, RsiStart(i, RsiPeriod), i + 1)
    requires cs[i] < Ema(cs, i, EmaPeriod)
    requires Solvent(l.portfolio) && l.portfolio.balance >= cs[i]
    ensures StepTwo(cs, i, l) == l
    ensures StepTwoTagged(cs, i, l).portfolio.shares - l.portfolio.shares
            == MinInt(BuySignal, (l.portfolio.balance / cs[i]).Floor)
    ensures StepTwoTagged(cs, i, l).portfolio.shares > l.portfolio.shares
  {
    SkippedTwoIffFallingWindow(cs, i);
    assert Rsi(cs, i, RsiPeriod) == 0.0;
    CashCoversOne(l.portfolio.balance, cs[i]);
  }

  /** Fifteen closes 115, 114, ..., 101. */
  function Falling(): (cs: seq<real>)
    ensures |cs| == 15 && PositivePrices(cs)
    ensures forall k :: 1 <= k < |cs| ==> Delta(cs, k) == -1.0
  {
    seq(15, k => 115.0 - k as real)
  }

  /** A concrete instance: a trader holding 5 shares and no cash (as after
      buy-and-hold on the same trader) runs the momentum strategy over
      15 closes falling by 1 each bar. The as-written strategy reads the
      last bar's computed RSI of 0 as missing history and ends still holding
      the 5 shares; the corrected one sells them at the last close. */
  lemma SentinelCounterexample()
    ensures RunAlgoTwo(Falling(), Portfolio(0.0, 5)).portfolio.shares == 5
    ensures RunAlgoTwoTagged(Falling(), Portfolio(0.0, 5)) ==
      Ledger(Portfolio(505.0, 0), [TradeEvent(14, FinalSell, 101.0, 0, 505.0)])
  {
    var cs := Falling();
    var init := Portfolio(0.0, 5);
    var i := |cs| - 1;
    assert Delta(cs, 1) < 0.0;
    assert !NoDrops(cs, RsiStart(i, RsiPeriod), i + 1);
    AlgoTwoQuietStart(cs, i, init);
    SentinelSkipsLiquidation(cs, init);
    var start := Ledger(init, []);
    AlgoTwoTaggedAgrees(cs, i, init);
    assert AlgoTwoTaggedAfter(cs, i, init) == start;
    SkippedTwoIffFallingWindow(cs, i);
    assert Rsi(cs, i, RsiPeriod) == 0.0;
    var signal := TradeEvaluator(cs[i], 0.0, Ema(cs, i, EmaPeriod));
    assert signal != SellSignal;
    assert MaxAffordable(init, cs[i]) == 0;
    assert TradeOnSignal(start, i, signal, cs[i]) == start;
    assert StepTwoTagged(cs, i, start) == FinalLiquidation(start, i, cs[i]);
  }

  /** A series too short for any RSI: the as-written strategy skips every
      bar, the last one included, so a trader holding 5 shares over the two
      closes 100 and 101 still holds them; the corrected one sells them at
      101. */
  lemma ShortSeriesCounterexample()
    ensures RunAlgoTwo([100.0, 101.0], Portfolio(0.0, 5)) == Ledger(Portfolio(0.0, 5), [])
    ensures RunAlgoTwoTagged([100.0, 101.0], Portfolio(0.0, 5)) ==
      Ledger(Portfolio(505.0, 0), [TradeEvent(1, FinalSell, 101.0, 0, 505.0)])
  {
  }

  /** Sixteen closes: 100, a rise to 101, then a fall of 1 per bar to 87. */
  function DipAfterRise(): (cs: seq<real>)
    ensures |cs| == 16 && PositivePrices(cs)
    ensures cs[14] == 88.0 && cs[15] == 87.0
  {
    seq(16, k => if k == 0 then 100.0 else 102.0 - k as real)
  }

  /** The ledger after the buy at bar 14 of DipAfterRise: 10 shares at 88
      out of 1000 in cash. */
  const DipBought: Ledger := Ledger(Portfolio(120.0, 10), [TradeEvent(14, Buy, 88.0, 10, 120.0)])

  /** The corrected strategy's ledger at the end of DipAfterRise: the buy at
      bar 14, one more share at 87 on the last bar, then the final sale. */
  const DipTaggedEnd: Ledger :=
    Ledger(Portfolio(990.0, 0), [TradeEvent(14, Buy, 88.0, 10, 120.0),
                                 TradeEvent(15, Buy, 87.0, 1, 33.0),
                                 TradeEvent(15, FinalSell, 87.0, 0, 990.0)])

  /** The changes of DipAfterRise: one rise into bar 1, then drops of 1. */
  lemma DipAfterRiseChanges()
    ensures Delta(DipAfterRise(), 1) == 1.0
    ensures forall k :: 2 <= k < 16 ==> Delta(DipAfterRise(), k) == -1.0
  {
  }

  /** From bar 1 on, DipAfterRise keeps falling: every close is below all the
      closes between bar 1 and it. */
  lemma DipAfterRiseNewLows(i: int)
    requires 1 <= i < 16
    ensures forall k :: 1 <= k < i ==> DipAfterRise()[k] > DipAfterRise()[i]
  {
  }

  /** The movement in the RSI window of bar 14 of DipAfterRise: one rise of 1
      and thirteen drops of 1. */
  lemma DipAfterRiseSums()
    ensures GainSum(DipAfterRise(), 1, 15) == 1.0
    ensures LossSum(DipAfterRise(), 1, 15) == 13.0
  {
    var cs := DipAfterRise();
    DipAfterRiseChanges();
    SumsSplit(cs, 1, 2, 15);
    assert GainSum(cs, 1, 2) == 1.0;
    assert LossSum(cs, 1, 2) == 0.0;
    GainSumZeroIff(cs, 2, 15);
    LossSumOfSteadyDrop(cs, 2, 15, 1.0);
  }

  /** The RSI of bar 14 of DipAfterRise: one rise against thirteen drops
      gives 100 / 14, which is oversold. */
  lemma DipAfterRiseRsi()
    ensures Rsi(DipAfterRise(), 14, RsiPeriod) == 100.0 / 14.0
  {
    var cs := DipAfterRise();
    DipAfterRiseSums();
    var g, l := AverageGain(cs, 14, RsiPeriod), AverageLoss(cs, 14, RsiPeriod);
    assert g == 1.0 / 14.0;
    assert l == 13.0 / 14.0;
    RsiAsGainShare(cs, 14, RsiPeriod);
    assert g + l == 1.0;
  }

  /** Bar 14 of DipAfterRise is traded, and its signal is a buy: the RSI is
      oversold and the close of 88 is a new low, under the EMA. */
  lemma DipAfterRiseBuySignal()
    ensures !SkippedTwo(DipAfterRise(), 14)
    ensures TradeEvaluator(88.0, Rsi(DipAfterRise(), 14, RsiPeriod), Ema(DipAfterRise(), 14, EmaPeriod))
            == BuySignal
  {
    var cs := DipAfterRise();
    DipAfterRiseRsi();
    DipAfterRiseNewLows(14);
    EmaAboveNewLow(cs, 14, EmaPeriod);
  }

  /** The buy at bar 14: 1000 affords 11 shares at 88, the signal asks for 10. */
  lemma DipAfterRiseBuyTrade()
    ensures TradeOnSignal(Ledger(Portfolio(1000.0, 0), []), 14, BuySignal, 88.0) == DipBought
  {
  }

  /** Over DipAfterRise a fresh trader with 1000 in cash does nothing for 14
      bars, then at bar 14 buys the full 10 shares. */
  lemma DipAfterRiseFirstBuy()
    ensures AlgoTwoAfter(DipAfterRise(), 15, Portfolio(1000.0, 0)) == DipBought
  {
    var cs := DipAfterRise();
    var init := Portfolio(1000.0, 0);
    var start := Ledger(init, []);
    AlgoTwoQuietStart(cs, 14, init);
    DipAfterRiseBuySignal();
    DipAfterRiseBuyTrade();
    var rsi, ema := Rsi(cs, 14, RsiPeriod), Ema(cs, 14, EmaPeriod);
    assert StepTwo(cs, 14, start) == TradeBar(cs, 14, rsi, ema, start);
    assert TradeBar(cs, 14, rsi, ema, start) == TradeOnSignal(start, 14, BuySignal, 88.0);
  }

  /** The last bar of DipAfterRise: its window, bars 2 .. 15, only falls, so
      the as-written strategy skips it, while the corrected one sees an RSI of
      0 and a close under the EMA, a buy. */
  lemma DipAfterRiseLastBar()
    ensures SkippedTwo(DipAfterRise(), 15)
    ensures Rsi(DipAfterRise(), 15, RsiPeriod) == 0.0
    ensures TradeEvaluator(87.0, 0.0, Ema(DipAfterRise(), 15, EmaPeriod)) == BuySignal
  {
    var cs := DipAfterRise();
    DipAfterRiseChanges();
    assert !NoDrops(cs, RsiStart(15, RsiPeriod), 16) by {
      assert Delta(cs, 2) < 0.0;
    }
    SkippedTwoIffFallingWindow(cs, 15);
    DipAfterRiseNewLows(15);
    EmaAboveNewLow(cs, 15, EmaPeriod);
  }

  /** The as-written strategy over DipAfterRise with 1000 in cash: the last
      bar's computed RSI is 0, so the bar is skipped with its final sale and
      the 10 shares bought at bar 14 stay held. */
  lemma DipAfterRiseAsWritten()
    ensures RunAlgoTwo(DipAfterRise(), Portfolio(1000.0, 0)) == DipBought
  {
    DipAfterRiseFirstBuy();
    DipAfterRiseLastBar();
  }

  /** The last-bar trade of the corrected strategy: 120 affords 1 share at 87. */
  lemma DipAfterRiseLastTrade()
    ensures TradeOnSignal(DipBought, 15, BuySignal, 87.0)
            == Ledger(Portfolio(33.0, 11), DipBought.log + [TradeEvent(15, Buy, 87.0, 1, 33.0)])
  {
  }

  /** The corrected strategy agrees with the as-written one over the first
      15 bars of DipAfterRise: bar 14's window has a rise. */
  lemma DipAfterRiseTaggedPrefix()
    ensures AlgoTwoTaggedAfter(DipAfterRise(), 15, Portfolio(1000.0, 0)) == DipBought
  {
    var cs := DipAfterRise();
    DipAfterRiseFirstBuy();
    DipAfterRiseChanges();
    assert !NoRises(cs, RsiStart(14, RsiPeriod), 15) by {
      assert Delta(cs, 1) > 0.0;
    }
    AlgoTwoTaggedAgrees(cs, 15, Portfolio(1000.0, 0));
  }

  /** The corrected last bar of DipAfterRise: one more share at 87, then
      everything sold at 87. */
  lemma DipAfterRiseTaggedLastBar()
    ensures StepTwoTagged(DipAfterRise(), 15, DipBought) == DipTaggedEnd
  {
    var cs := DipAfterRise();
    var bought := DipBought;
    DipAfterRiseLastBar();
    DipAfterRiseLastTrade();
    var ema := Ema(cs, 15, EmaPeriod);
    var traded := TradeOnSignal(bought, 15, BuySignal, 87.0);
    assert StepTwoTagged(cs, 15, bought) == TradeBar(cs, 15, 0.0, ema, bought);
    assert TradeBar(cs, 15, 0.0, ema, bought) == FinalLiquidation(traded, 15, 87.0);
    var e1, e2, e3 := TradeEvent(14, Buy, 88.0, 10, 120.0), TradeEvent(15, Buy, 87.0, 1, 33.0),
                      TradeEvent(15, FinalSell, 87.0, 0, 990.0);
    assert [e1] + [e2] + [e3] == [e1, e2, e3];
  }

  /** The corrected strategy over DipAfterRise with 1000 in cash: it agrees
      up to bar 14, then buys one more share at 87 on the last bar and
      liquidates, ending with 990 in cash. */
  lemma DipAfterRiseTagged()
    ensures RunAlgoTwoTagged(DipAfterRise(), Portfolio(1000.0, 0)) == DipTaggedEnd
  {
    var cs := DipAfterRise();
    var init := Portfolio(1000.0, 0);
    DipAfterRiseTaggedPrefix();
    DipAfterRiseTaggedLastBar();
    RunAlgoTwoTaggedLastStep(cs, init);
  }

  /** A fresh trader, no shares held going in: with 1000 in cash over
      DipAfterRise the as-written strategy ends holding 10 shares with no
      final sale logged, while the corrected one ends all in cash. */
  lemma DipAfterRiseCounterexample()
    ensures RunAlgoTwo(DipAfterRise(), Portfolio(1000.0, 0)).portfolio.shares == 10
    ensures RunAlgoTwoTagged(DipAfterRise(), Portfolio(1000.0, 0)).portfolio == Portfolio(990.0, 0)
  {
    DipAfterRiseAsWritten();
    DipAfterRiseTagged();
  }
}
