/** The trader's three back-testing strategies over a series of closes, each a
    fold of a per-bar step over the bar positions:

    - buy-and-hold: spend the cash on the first close, value the shares at
      the last close;
    - threshold momentum: buy up to 10 shares when the 14-bar RSI is at most
      30 and the close is under the 14-bar EMA, sell up to 10 when the RSI is
      at least 70 and the close is over the EMA, skip bars whose RSI or EMA is
      the 0.0 sentinel, and liquidate on the last bar unless it is skipped;
    - band reversion: against the mean and population standard deviation of
      the 14 closes before the bar, buy everything affordable below the lower
      band and sell everything held above the upper band.

    The trade log records, per executed trade, the bar position, the action,
    the price, the share count and the cash after the trade. */
module Strategies {
  import opened Series
  import opened Options
  import opened RealArith
  import opened Indicators
  import opened Statistics
  import opened Portfolios

  const RsiPeriod: int := 14
  const EmaPeriod: int := 14
  const BuySignal: int := 10
  const SellSignal: int := -10
  const OversoldLevel: real := 30.0
  const OverboughtLevel: real := 70.0
  const Lookback: int := 14
  const MinBandBars: int := 20

  datatype Action = Buy | Sell | FinalSell

  datatype TradeEvent = TradeEvent(bar: nat, action: Action, price: real, shares: int, balance: real)

  /** The trader's state together with the trades logged so far. */
  datatype Ledger = Ledger(portfolio: Portfolio, log: seq<TradeEvent>)

  /** The signal of the threshold rule: +10 (buy) when oversold below the
      average, -10 (sell) when overbought above it, 0 otherwise. */
  function TradeEvaluator(close: real, rsi: real, movingAvg: real): (signal: int)
    ensures signal == BuySignal <==> rsi <= OversoldLevel && close < movingAvg
    ensures signal == SellSignal <==> rsi >= OverboughtLevel && close > movingAvg
    ensures signal == 0 <==> !(rsi <= OversoldLevel && close < movingAvg)
                             && !(rsi >= OverboughtLevel && close > movingAvg)
  {
    if rsi <= OversoldLevel && close < movingAvg then BuySignal
    else if rsi >= OverboughtLevel && close > movingAvg then SellSignal
    else 0
  }

  /** The buy and sell conditions never hold together, so the order in which
      the rule tests them does not matter. */
  lemma SignalsExclusive(close: real, rsi: real, movingAvg: real)
    ensures !((rsi <= OversoldLevel && close < movingAvg) && (rsi >= OverboughtLevel && close > movingAvg))
  {
  }

  // ---------------------------------------------------------------- buy and hold

  /** What buy-and-hold leaves: the portfolio and, when there was data, the
      net worth at the last close. */
  datatype HoldOutcome = HoldOutcome(portfolio: Portfolio, netWorth: Option<real>)

  /** Buy-and-hold: with no bars nothing changes and nothing is valued;
      otherwise the share count is set to what the cash buys at the first
      close, the cash left is less than one share, and the shares are marked
      to the last close. */
  function RunAlgoOne(cs: seq<real>, init: Portfolio): (r: HoldOutcome)
    requires PositivePrices(cs)
    ensures |cs| == 0 ==> r == HoldOutcome(init, None)
    ensures |cs| > 0 ==>
      && r.portfolio.balance == init.balance - r.portfolio.shares as real * cs[0]
      && r.netWorth == Some(NetWorth(r.portfolio, cs[|cs| - 1]))
    ensures |cs| > 0 && init.balance >= 0.0 ==>
      && r.portfolio.shares >= 0
      && 0.0 <= r.portfolio.balance < cs[0]
  {
    if |cs| == 0 then HoldOutcome(init, None)
    else
      var price := cs[0];
      var shares := MaxAffordable(init, price);
      assert (shares + 1) as real * price == shares as real * price + price;
      var held := Portfolio(init.balance - shares as real * price, shares);
      HoldOutcome(held, Some(NetWorth(held, cs[|cs| - 1])))
  }

  /** The net worth of buy-and-hold is the starting cash plus the price
      change from first to last close on every share bought. */
  lemma BuyAndHoldGain(cs: seq<real>, init: Portfolio)
    requires PositivePrices(cs) && |cs| > 0
    ensures var r := RunAlgoOne(cs, init);
            && r.netWorth.Some?
            && r.netWorth.value == init.balance + r.portfolio.shares as real * (cs[|cs| - 1] - cs[0])
  {
  }

  /** The share count is assigned, not added to: shares held before the
      strategy runs are dropped from the portfolio and from the valuation. */
  lemma BuyAndHoldDropsHeldShares(cs: seq<real>, balance: real, held: int)
    requires PositivePrices(cs) && |cs| > 0
    ensures RunAlgoOne(cs, Portfolio(balance, held)) == RunAlgoOne(cs, Portfolio(balance, 0))
  {
  }

  /** 1000 in cash over the closes 100, 102, 98, 105, 150 buys 10 shares with
      nothing left over and is worth 1500 at the end. */
  lemma BuyAndHoldScenario()
    ensures RunAlgoOne([100.0, 102.0, 98.0, 105.0, 150.0], Portfolio(1000.0, 0))
            == HoldOutcome(Portfolio(0.0, 10), Some(1500.0))
  {
  }

  // ---------------------------------------------------------- threshold momentum

  /** A bar the momentum strategy passes over entirely, last-bar liquidation
      included: its RSI or its EMA is the 0.0 sentinel. */
  predicate SkippedTwo(cs: seq<real>, i: int)
    requires 0 <= i < |cs|
  {
    Rsi(cs, i, RsiPeriod) == 0.0 || Ema(cs, i, EmaPeriod) == 0.0
  }

  /** Apply a signal at `price`: a positive one buys up to that many shares, a
      negative one sells up to that many; an executed trade is logged. From
      a solvent state a buy takes the smaller of the signal and the whole
      shares the cash pays for; from non-negative holdings a sell gives up the
      smaller of the holdings and the signal's size. The worth at the trade
      price is kept, and the log gains exactly the trade that moved the
      holdings, or nothing when they did not move. */
  function TradeOnSignal(l: Ledger, bar: nat, signal: int, price: real): (r: Ledger)
    requires price > 0.0
    ensures Solvent(l.portfolio) ==> Solvent(r.portfolio)
    ensures NetWorth(r.portfolio, price) == NetWorth(l.portfolio, price)
    ensures signal > 0 && Solvent(l.portfolio) ==>
      r.portfolio.shares - l.portfolio.shares == MinInt(signal, (l.portfolio.balance / price).Floor)
    ensures signal < 0 && l.portfolio.shares >= 0 ==>
      l.portfolio.shares - r.portfolio.shares == MinInt(l.portfolio.shares, -signal)
    ensures signal >= 0 ==> r.portfolio.shares >= l.portfolio.shares
    ensures signal <= 0 ==> r.portfolio.shares <= l.portfolio.shares
    ensures r.portfolio.shares == l.portfolio.shares ==> r == l
    ensures r.portfolio.shares > l.portfolio.shares ==>
      r.log == l.log + [TradeEvent(bar, Buy, price, r.portfolio.shares - l.portfolio.shares, r.portfolio.balance)]
    ensures r.portfolio.shares < l.portfolio.shares ==>
      r.log == l.log + [TradeEvent(bar, Sell, price, l.portfolio.shares - r.portfolio.shares, r.portfolio.balance)]
  {
    var p := l.portfolio;
    if signal > 0 then
      var q := BuyQuantity(p, signal, price);
      if q > 0 then
        var bought := BuyUpTo(p, signal, price);
        Ledger(bought, l.log + [TradeEvent(bar, Buy, price, q, bought.balance)])
      else l
    else if signal < 0 then
      var q := SellQuantity(p, -signal);
      if q > 0 then
        var sold := SellUpTo(p, -signal, price);
        Ledger(sold, l.log + [TradeEvent(bar, Sell, price, q, sold.balance)])
      else l
    else l
  }

  /** Final liquidation: every share is sold at the close and the event is
      logged with the share count read after it was reset, which is 0. */
  function FinalLiquidation(l: Ledger, bar: nat, price: real): (r: Ledger)
    requires price > 0.0
    ensures r.portfolio.shares == 0
    ensures r.portfolio.balance == NetWorth(l.portfolio, price)
    ensures Solvent(l.portfolio) ==> Solvent(r.portfolio)
    ensures r.log == l.log + [TradeEvent(bar, FinalSell, price, 0, r.portfolio.balance)]
  {
    var cashed := Liquidate(l.portfolio, price);
    Ledger(cashed, l.log + [TradeEvent(bar, FinalSell, price, cashed.shares, cashed.balance)])
  }

  /** A bar that is not skipped: trade on the signal, then liquidate if it is
      the last bar. On the last bar the whole position ends up in cash, worth
      what the portfolio was worth at that close. On any other bar an
      oversold close under the average buys the smaller of 10 and what the
      cash pays for, an overbought close over the average sells the smaller
      of 10 and the holdings, and any other bar changes nothing. */
  function TradeBar(cs: seq<real>, i: nat, rsi: real, ema: real, l: Ledger): (r: Ledger)
    requires i < |cs| && PositivePrices(cs)
    ensures Solvent(l.portfolio) ==> Solvent(r.portfolio)
    ensures i == |cs| - 1 ==>
      && r.portfolio.shares == 0
      && r.portfolio.balance == NetWorth(l.portfolio, cs[i])
      && |r.log| > 0
      && r.log[|r.log| - 1] == TradeEvent(i, FinalSell, cs[i], 0, r.portfolio.balance)
    ensures i < |cs| - 1 && rsi <= OversoldLevel && cs[i] < ema && Solvent(l.portfolio) ==>
      r.portfolio.shares - l.portfolio.shares == MinInt(BuySignal, (l.portfolio.balance / cs[i]).Floor)
    ensures i < |cs| - 1 && rsi >= OverboughtLevel && cs[i] > ema && l.portfolio.shares >= 0 ==>
      l.portfolio.shares - r.portfolio.shares == MinInt(l.portfolio.shares, -SellSignal)
    ensures i < |cs| - 1 && !(rsi <= OversoldLevel && cs[i] < ema) && !(rsi >= OverboughtLevel && cs[i] > ema) ==>
      r == l
  {
    var signal := TradeEvaluator(cs[i], rsi, ema);
    var traded := TradeOnSignal(l, i, signal, cs[i]);
    if i == |cs| - 1 then FinalLiquidation(traded, i, cs[i]) else traded
  }

  /** One bar of the momentum strategy: a skipped bar changes nothing, which
      is always the case for the first 14 bars, whose RSI lacks history. Any
      other bar trades on its signal: before the last bar an oversold close
      under the EMA buys the smaller of 10 and what the cash pays for, and an
      overbought close over the EMA sells the smaller of 10 and the holdings. */
  function StepTwo(cs: seq<real>, i: nat, l: Ledger): (r: Ledger)
    requires i < |cs| && PositivePrices(cs)
    ensures SkippedTwo(cs, i) ==> r == l
    ensures i < RsiPeriod ==> r == l
    ensures Solvent(l.portfolio) ==> Solvent(r.portfolio)
    ensures !SkippedTwo(cs, i) ==> r == TradeBar(cs, i, Rsi(cs, i, RsiPeriod), Ema(cs, i, EmaPeriod), l)
    ensures !SkippedTwo(cs, i) && i < |cs| - 1 && Solvent(l.portfolio)
            && Rsi(cs, i, RsiPeriod) <= OversoldLevel && cs[i] < Ema(cs, i, EmaPeriod) ==>
      r.portfolio.shares - l.portfolio.shares == MinInt(BuySignal, (l.portfolio.balance / cs[i]).Floor)
    ensures !SkippedTwo(cs, i) && i < |cs| - 1 && l.portfolio.shares >= 0
            && Rsi(cs, i, RsiPeriod) >= OverboughtLevel && cs[i] > Ema(cs, i, EmaPeriod) ==>
      l.portfolio.shares - r.portfolio.shares == MinInt(l.portfolio.shares, -SellSignal)
  {
    if SkippedTwo(cs, i) then l
    else TradeBar(cs, i, Rsi(cs, i, RsiPeriod), Ema(cs, i, EmaPeriod), l)
  }

  /** The momentum strategy after its first k bars. */
  function AlgoTwoAfter(cs: seq<real>, k: nat, init: Portfolio): Ledger
    requires k <= |cs| && PositivePrices(cs)
  {
    if k == 0 then Ledger(init, [])
    else StepTwo(cs, k - 1, AlgoTwoAfter(cs, k - 1, init))
  }

  /** A solvent trader stays solvent through any number of momentum bars. */
  lemma {:induction false} AlgoTwoSolvent(cs: seq<real>, k: nat, init: Portfolio)
    requires k <= |cs| && PositivePrices(cs) && Solvent(init)
    ensures Solvent(AlgoTwoAfter(cs, k, init).portfolio)
  {
    if k > 0 {
      AlgoTwoSolvent(cs, k - 1, init);
    }
  }

  /** Nothing happens in the first 14 bars: no trade and no log entry. */
  lemma {:induction false} AlgoTwoQuietStart(cs: seq<real>, k: nat, init: Portfolio)
    requires k <= |cs| && k <= RsiPeriod && PositivePrices(cs)
    ensures AlgoTwoAfter(cs, k, init) == Ledger(init, [])
  {
    if k > 0 {
      AlgoTwoQuietStart(cs, k - 1, init);
    }
  }

  /** The momentum strategy over the whole series. A solvent trader stays
      solvent; a series of at most 14 bars changes nothing; when the last bar
      is not skipped every share is sold at its close and the log ends with
      the final sale, showing 0 shares; when it is skipped the outcome is that
      of the bars before it, holdings included. */
  function RunAlgoTwo(cs: seq<real>, init: Portfolio): (r: Ledger)
    requires PositivePrices(cs)
    ensures Solvent(init) ==> Solvent(r.portfolio)
    ensures |cs| <= RsiPeriod ==> r == Ledger(init, [])
    ensures |cs| > 0 && !SkippedTwo(cs, |cs| - 1) ==>
      && r.portfolio.shares == 0
      && |r.log| > 0
      && r.log[|r.log| - 1] == TradeEvent(|cs| - 1, FinalSell, cs[|cs| - 1], 0, r.portfolio.balance)
    ensures |cs| > 0 && SkippedTwo(cs, |cs| - 1) ==> r == AlgoTwoAfter(cs, |cs| - 1, init)
  {
    if |cs| <= RsiPeriod then
      AlgoTwoQuietStart(cs, |cs|, init);
      AlgoTwoAfter(cs, |cs|, init)
    else if Solvent(init) then
      AlgoTwoSolvent(cs, |cs|, init);
      AlgoTwoAfter(cs, |cs|, init)
    else AlgoTwoAfter(cs, |cs|, init)
  }

  // ------------------------------------------------------------- band reversion

  /** The `Lookback` closes strictly before bar i; bar i itself is not in it. */
  function BandWindow(cs: seq<real>, i: int): (w: seq<real>)
    requires Lookback <= i <= |cs|
    ensures |w| == Lookback
    ensures forall k :: 0 <= k < Lookback ==> w[k] == cs[i - Lookback + k]
  {
    cs[i - Lookback .. i]
  }

  /** `price < mean - 2 sd`, stated through the variance so that no square
      root is needed. */
  predicate BelowBand(price: real, w: seq<real>)
    requires |w| > 0
  {
    var d := Mean(w) - price;
    d > 0.0 && Square(d) > 4.0 * Variance(w)
  }

  /** `price > mean + 2 sd`, stated through the variance. */
  predicate AboveBand(price: real, w: seq<real>)
    requires |w| > 0
  {
    var d := price - Mean(w);
    d > 0.0 && Square(d) > 4.0 * Variance(w)
  }

  /** The band tests agree with the comparisons of `Trader.runAlgoThree` against
      `mean -/+ 2 * sd` for a standard deviation sd of the window. */
  lemma BandTestsMatchStdDev(price: real, w: seq<real>, sd: real)
    requires |w| > 0 && IsStdDev(sd, w)
    ensures BelowBand(price, w) <==> price < Mean(w) - 2.0 * sd
    ensures AboveBand(price, w) <==> price > Mean(w) + 2.0 * sd
  {
    ExceedsTwiceIff(Mean(w) - price, sd);
    ExceedsTwiceIff(price - Mean(w), sd);
  }

  /** One bar of the band strategy. Below the band it buys as many shares as
      the cash affords, leaving less than one share's price; above it sells
      every share held; inside it changes nothing. Trades happen at the bar's
      close, so the worth at that close is kept. */
  function StepThree(cs: seq<real>, i: nat, l: Ledger): (r: Ledger)
    requires Lookback <= i < |cs| && PositivePrices(cs)
    ensures Solvent(l.portfolio) ==> Solvent(r.portfolio)
    ensures NetWorth(r.portfolio, cs[i]) == NetWorth(l.portfolio, cs[i])
    ensures BelowBand(cs[i], BandWindow(cs, i)) && Solvent(l.portfolio) ==>
      r.portfolio.shares >= l.portfolio.shares && r.portfolio.balance < cs[i]
    ensures !BelowBand(cs[i], BandWindow(cs, i)) && AboveBand(cs[i], BandWindow(cs, i))
            && l.portfolio.shares >= 0 ==>
      r.portfolio.shares == 0
    ensures !BelowBand(cs[i], BandWindow(cs, i)) && !AboveBand(cs[i], BandWindow(cs, i)) ==>
      r == l
  {
    var w := BandWindow(cs, i);
    var price := cs[i];
    var p := l.portfolio;
    if BelowBand(price, w) then
      var q := MaxAffordable(p, price);
      if q > 0 then
        var bought := BuyUpTo(p, q, price);
        Ledger(bought, l.log + [TradeEvent(i, Buy, price, q, bought.balance)])
      else l
    else if AboveBand(price, w) then
      var q := p.shares;
      if q > 0 then
        var sold := SellUpTo(p, q, price);
        Ledger(sold, l.log + [TradeEvent(i, Sell, price, q, sold.balance)])
      else l
    else l
  }

  /** The two bands never hold together. */
  lemma BandsExclusive(price: real, w: seq<real>)
    requires |w| > 0
    ensures !(BelowBand(price, w) && AboveBand(price, w))
  {
  }

  /** The band strategy after bars Lookback .. k-1. */
  function AlgoThreeAfter(cs: seq<real>, k: nat, init: Portfolio): Ledger
    requires Lookback <= k <= |cs| && PositivePrices(cs)
    decreases k
  {
    if k == Lookback then Ledger(init, [])
    else StepThree(cs, k - 1, AlgoThreeAfter(cs, k - 1, init))
  }

  /** A solvent trader stays solvent through any number of band bars. */
  lemma {:induction false} AlgoThreeSolvent(cs: seq<real>, k: nat, init: Portfolio)
    requires Lookback <= k <= |cs| && PositivePrices(cs) && Solvent(init)
    ensures Solvent(AlgoThreeAfter(cs, k, init).portfolio)
    decreases k
  {
    if k > Lookback {
      AlgoThreeSolvent(cs, k - 1, init);
    }
  }

  /** The band strategy over the whole series: with fewer than 20 bars it
      does not start, and a solvent trader stays solvent. */
  function RunAlgoThree(cs: seq<real>, init: Portfolio): (r: Ledger)
    requires PositivePrices(cs)
    ensures |cs| < MinBandBars ==> r == Ledger(init, [])
    ensures Solvent(init) ==> Solvent(r.portfolio)
  {
    if |cs| < MinBandBars then Ledger(init, [])
    else
      if Solvent(init) then AlgoThreeSolvent(cs, |cs|, init); AlgoThreeAfter(cs, |cs|, init)
      else AlgoThreeAfter(cs, |cs|, init)
  }

  /** A window of 14 equal closes has no spread, so a bar at the same close
      sits inside the band and nothing happens. */
  lemma FlatWindowHolds(cs: seq<real>, i: nat, l: Ledger, c: real)
    requires Lookback <= i < |cs| && PositivePrices(cs)
    requires Constant(BandWindow(cs, i), c) && cs[i] == c
    ensures StepThree(cs, i, l) == l
  {
  }

  /** After 14 equal closes any drop is below the band: the strategy buys all
      the cash affords. */
  lemma FlatWindowDropBuys(cs: seq<real>, i: nat, l: Ledger, c: real)
    requires Lookback <= i < |cs| && PositivePrices(cs) && Solvent(l.portfolio)
    requires Constant(BandWindow(cs, i), c) && cs[i] < c
    ensures var r := StepThree(cs, i, l);
            r.portfolio.shares - l.portfolio.shares == MaxAffordable(l.portfolio, cs[i])
  {
    var w := BandWindow(cs, i);
    MeanOfConstant(w, c);
    assert AllEqual(w);
    VarianceZeroIff(w);
    assert BelowBand(cs[i], w);
  }

  /** After 14 equal closes any rise is above the band: the strategy sells
      every share. */
  lemma FlatWindowRiseSellsAll(cs: seq<real>, i: nat, l: Ledger, c: real)
    requires Lookback <= i < |cs| && PositivePrices(cs) && l.portfolio.shares >= 0
    requires Constant(BandWindow(cs, i), c) && cs[i] > c
    ensures StepThree(cs, i, l).portfolio.shares == 0
  {
    var w := BandWindow(cs, i);
    MeanOfConstant(w, c);
    assert AllEqual(w);
    VarianceZeroIff(w);
    assert AboveBand(cs[i], w);
  }

  /** The band step reads only the 14 closes before the bar and the bar's own
      close. */
  lemma StepThreeReadsPriorWindow(cs: seq<real>, cs': seq<real>, i: nat, l: Ledger)
    requires Lookback <= i < |cs| && i < |cs'| && PositivePrices(cs) && PositivePrices(cs')
    requires forall k :: i - Lookback <= k <= i ==> cs[k] == cs'[k]
    ensures StepThree(cs, i, l) == StepThree(cs', i, l)
  {
    assert BandWindow(cs, i) == BandWindow(cs', i);
  }
}
