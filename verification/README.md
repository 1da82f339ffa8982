# Back-testing engine: indicators, portfolio and three strategies

This project models the core of a small stock back-testing engine. A stock is
a sequence of daily bars, and only each bar's close is used. The stock computes
two indicators for the bar at a given position:

- a 14-change relative strength index (RSI);
- a windowed exponential moving average (EMA).

Both indicators return the sentinel 0.0 when there is too little history. A
trader holds a cash balance and a whole number of shares, and runs one of
three strategies over the closes:

- **buy-and-hold:** spend the cash at the first close, then value the shares
  at the last close;
- **threshold momentum:**
  - buy up to 10 shares when the RSI is at most 30 and the close is below the
    EMA;
  - sell up to 10 shares when the RSI is at least 70 and the close is above
    the EMA;
  - skip any bar whose RSI or EMA is the sentinel;
  - sell everything on the last bar unless it is skipped;
- **band reversion:** over the 14 closes before each bar, buy everything the
  cash affords when the close is below mean − 2·sd, and sell everything held
  when it is above mean + 2·sd.

Modules:

- `Series`: bars, closes, and sums/min/max of sequences.
- `Indicators`: RSI and EMA.
- `Statistics`: mean and population variance/standard deviation.
- `Portfolios`: the cash/shares state, with buys clamped to the cash and sells
  clamped to the holdings.
- `Strategies`: the three runs, each a fold of a per-bar step over bar
  positions, with a trade log of the events the engine records.
- `TaggedStrategies`: the momentum strategy corrected for the findings below.
- `RealArith` and `Options`: helpers.

Prices and cash are exact reals, and share counts are unbounded integers.
Java's `(int)` cast of a quotient is modelled as truncation toward zero
(`Portfolios.Trunc`). The runs require every close to be positive. `Trader`
does not check this; a zero close would make it divide by zero.

## Model

| member | source | states |
|---|---|---|
| Series.Closes | Stock.java:65-68 | the close series has one entry per bar, and each entry is that bar's close |
| Indicators.Gain | Stock.java:40 | a change's gain is non-negative, and zero exactly when the change is not a rise |
| Indicators.Loss | Stock.java:41 | a change's loss is non-negative, and zero exactly when the change is not a drop |
| Indicators.GainSum | Stock.java:38-42 | the summed gains of a window are non-negative |
| Indicators.LossSum | Stock.java:38-42 | the summed losses of a window are non-negative |
| Indicators.GainSumZeroIff | Stock.java:38-42 | the gain sum is zero exactly when no change in the window is a rise |
| Indicators.LossSumZeroIff | Stock.java:38-42 | the loss sum is zero exactly when no change in the window is a drop |
| Indicators.SumsSplit | Stock.java:38-42 | the gain and loss sums add up over adjacent ranges of bars |
| Indicators.LossSumOfSteadyDrop | Stock.java:38-42 | a run of equal drops has a loss sum of the drop times the number of bars |
| Indicators.Rsi | Stock.java:26-54 | RSI is in [0, 100]; it is the sentinel 0 for bars before position 14; otherwise it is 100 exactly when the window has no drop (a flat window included), and 0 exactly when the window has drops and no rise, which collides with the sentinel |
| Indicators.RsiAsGainShare | Stock.java:52-53 | when the window has losses, 100 − 100/(1 + g/l) equals 100·g/(g + l), and it is below 100 |
| Indicators.CalculateRsi | Stock.java:26-54 | the accumulate-then-divide loop of `Stock.calculateRSI` computes the RSI above |
| Indicators.Alpha | Stock.java:70 | the smoothing factor 2/(period+1) lies in (0, 1] |
| Indicators.BlendBetween | Stock.java:75 | one smoothing step stays between the running average and the new close |
| Indicators.EmaFold | Stock.java:70-78 | the EMA of a window, seeded at its first close, lies between the window's minimum and maximum |
| Indicators.Ema | Stock.java:56-79 | EMA is the sentinel 0 for bars before position 13 (a different threshold from RSI); otherwise it lies within its window's range |
| Indicators.SmoothWindow | Stock.java:71-76 | the seed-then-blend loop computes the folded EMA of the window |
| Indicators.CalculateEma | Stock.java:56-79 | the sentinel check, window extraction and loop of `Stock.calculateEMA` compute the EMA above |
| Indicators.EmaOfConstantWindow | Stock.java:70-78 | the EMA of a window of equal closes is that close |
| Indicators.EmaPeriodOne | Stock.java:65-78 | with period 1 the EMA is the bar's own close |
| Indicators.EmaOnlyReadsWindow | Stock.java:65-68 | the EMA depends only on the closes in its window, so no state carries between calls |
| Indicators.EmaAboveNewLow | Stock.java:71-76 | a close below every earlier close of its window is below its EMA |
| Indicators.EmaPositive | Stock.java:56-79 | over positive closes a computed EMA is positive, so it never collides with the sentinel |
| Statistics.Mean | Trader.java:228-235 | the mean is sum over count, and it lies between the minimum and the maximum |
| Statistics.MeanOfConstant | Trader.java:228-235 | the mean of equal values is that value |
| Statistics.SquaredDeviations | Trader.java:221-223 | the summed squared deviations are non-negative |
| Statistics.SquaredDeviationsZeroIff | Trader.java:221-223 | the squared deviations from m vanish exactly when every value is m |
| Statistics.Variance | Trader.java:211-226 | the population variance is non-negative |
| Statistics.VarianceZeroIff | Trader.java:211-226 | the variance is zero exactly when all values are equal |
| Statistics.StdDevZeroIff | Trader.java:225 | a standard deviation is zero exactly when all values are equal |
| Statistics.PopulationDivisor | Trader.java:225 | the divisor is the count and not the count less one: the values 1 and 3 have variance 1 |
| Statistics.CalculateMean | Trader.java:228-235 | the summing loop computes the mean |
| Statistics.AccumulateSquaredDeviations | Trader.java:221-223 | the second loop of the standard deviation sums the squared deviations |
| Statistics.CalculateVariance | Trader.java:211-225 | the standard deviation before its square root is the population variance, and it is zero exactly when all values are equal |
| Portfolios.Trunc | Trader.java:83 | the int cast truncates toward zero: it is the largest integer not above a non-negative value |
| Portfolios.MaxAffordable | Trader.java:83 | with non-negative cash, n = (int)(balance/price) is the largest count whose cost fits in the cash: n·price ≤ balance < (n+1)·price |
| Portfolios.BuyUpTo | Trader.java:81-93 | a clamped buy pays exactly for what it buys and keeps the worth at the trade price; from a solvent state it stays solvent and buys at most the request, falling short only when less than one share's price is left; a zero quantity changes nothing |
| Portfolios.BuyExactlyMin | Trader.java:83-88 | a buy purchases exactly min(request, floor(balance/price)) shares |
| Portfolios.BuyClampedByCash | Trader.java:83-84 | when the request costs more than the cash, exactly floor(balance/price) shares are bought |
| Portfolios.SellUpTo | Trader.java:94-105 | a clamped sell is paid exactly the proceeds; holdings stay non-negative and fall short of the request only by selling everything; a zero quantity changes nothing |
| Portfolios.SellExactlyMin | Trader.java:95-99 | a sell sells exactly min(holdings, request) shares |
| Portfolios.SellClampedByHoldings | Trader.java:95 | a request above the holdings sells everything |
| Portfolios.BuyThenSellRestores | Trader.java:86-100 | buying q shares and then selling q at the same price restores the cash and the holdings |
| Portfolios.Liquidate | Trader.java:109-111 | liquidation leaves no shares and turns the worth at the close into cash |
| Strategies.TradeEvaluator | Trader.java:16-24 | the signal is +10 exactly when oversold below the average, −10 exactly when overbought above it, and 0 exactly when neither holds |
| Strategies.SignalsExclusive | Trader.java:16-24 | the buy and sell conditions never hold together |
| Strategies.RunAlgoOne | Trader.java:30-56 | no bars change nothing and value nothing; otherwise the cash pays for the shares bought at the first close, non-negative cash leaves 0 ≤ balance < first close, and the net worth is the balance plus the shares at the last close |
| Strategies.BuyAndHoldGain | Trader.java:39-52 | the final net worth is the starting cash plus the first-to-last price change on every share bought |
| Strategies.BuyAndHoldDropsHeldShares | Trader.java:41-42 | the share count is assigned, not added to, so shares already held are dropped |
| Strategies.BuyAndHoldScenario | Trader.java:30-56 | 1000 in cash over closes 100, 102, 98, 105, 150 buys 10 shares, leaves no cash and is worth 1500 |
| Strategies.TradeOnSignal | Trader.java:79-105 | from a solvent state a buy signal buys the smaller of the signal and the whole shares the cash pays for; from non-negative holdings a sell signal sells the smaller of the holdings and the signal's size; solvency and the worth at the close are kept; the log gains the Buy or Sell event carrying the count traded and the cash after it exactly when the holdings move, and nothing changes otherwise |
| Strategies.FinalLiquidation | Trader.java:108-115 | the final sale leaves no shares, turns the worth into cash, and logs a share count of 0, read after the reset |
| Strategies.TradeBar | Trader.java:78-115 | on the last bar everything ends in cash, worth what the portfolio was worth at that close, and the log ends with the final sale; on any other bar an RSI of at most 30 with the close under the EMA buys the smaller of 10 and what the cash pays for, an RSI of at least 70 with the close over the EMA sells the smaller of 10 and the holdings, and otherwise nothing changes |
| Strategies.StepTwo | Trader.java:72-116 | a bar with a sentinel indicator changes nothing, and so does every bar before position 14; any other bar trades on its signal: before the last bar an RSI of at most 30 with the close under the EMA buys the smaller of 10 and what the cash pays for, and an RSI of at least 70 with the close over the EMA sells the smaller of 10 and the holdings |
| Strategies.AlgoTwoSolvent | Trader.java:72-116 | non-negative cash and holdings stay non-negative through the momentum strategy |
| Strategies.AlgoTwoQuietStart | Trader.java:72-77 | the first 14 bars neither trade nor log |
| Strategies.RunAlgoTwo | Trader.java:62-119 | the run keeps solvency and changes nothing on 14 bars or fewer; if the last bar is not skipped, every share is sold and the log ends with the final sale; if it is skipped, the outcome is that of the bars before it |
| Strategies.BandWindow | Trader.java:160-163 | the band window is the 14 closes strictly before the bar |
| Strategies.BandTestsMatchStdDev | Trader.java:168-179 | the variance-based band tests agree with close < mean − 2·sd and close > mean + 2·sd for the standard deviation sd |
| Strategies.StepThree | Trader.java:165-190 | below the band the bar buys, leaving less than one share's price in cash; above it (and not below) it sells every share; inside the band nothing changes; solvency and the worth at the close are kept |
| Strategies.BandsExclusive | Trader.java:168-179 | a close is never below the lower band and above the upper band at once |
| Strategies.AlgoThreeSolvent | Trader.java:156-191 | non-negative cash and holdings stay non-negative through the band strategy |
| Strategies.RunAlgoThree | Trader.java:136-194 | fewer than 20 bars change nothing; the run keeps solvency |
| Strategies.FlatWindowHolds | Trader.java:165-190 | after 14 equal closes, a bar at the same close changes nothing |
| Strategies.FlatWindowDropBuys | Trader.java:168-177 | after 14 equal closes any drop buys everything the cash affords |
| Strategies.FlatWindowRiseSellsAll | Trader.java:179-189 | after 14 equal closes any rise sells every share |
| Strategies.StepThreeReadsPriorWindow | Trader.java:157-166 | a band step reads only the 14 closes before the bar and the bar's own close |
| TaggedStrategies.RsiValue | Stock.java:30-32 | the RSI is absent exactly when fewer than 14 changes precede the bar; when present it is the computed index |
| TaggedStrategies.EmaValue | Stock.java:60-62 | the EMA is absent exactly when fewer than 14 closes end at the bar; when present over positive closes it is positive |
| TaggedStrategies.SkippedTaggedIff | Trader.java:76-77 | with absence kept apart from values, only the first 14 bars are skipped |
| TaggedStrategies.SkippedTwoIffFallingWindow | Trader.java:76-77 | the as-written skip hits a bar with enough history exactly when its RSI window has drops and no rise |
| TaggedStrategies.StepTwoTagged | Trader.java:72-116 | the corrected step leaves the first 14 bars alone unless one is the last bar, always liquidates on the last bar, and agrees with the as-written step wherever that step does not skip; from bar 14 on every bar trades on its signal, a computed RSI of 0 included, so before the last bar an oversold close under the EMA buys the smaller of 10 and what the cash pays for |
| TaggedStrategies.AlgoTwoTaggedSolvent | Trader.java:72-116 | the corrected strategy keeps solvency |
| TaggedStrategies.AlgoTwoTaggedAgrees | Trader.java:72-116 | when no bar's RSI window only falls, the corrected and as-written strategies trade identically over any proper prefix, and over a whole series longer than 14 bars |
| TaggedStrategies.RunAlgoTwoTagged | Trader.java:62-119 | the corrected run keeps solvency and changes nothing on an empty series; any other series ends with no shares and the final sale logged, and one of at most 14 bars only cashes the holdings in at the last close |
| TaggedStrategies.SentinelSkipsBuy | Trader.java:76-92 | on a bar before the last whose window only falls and whose close is under the EMA, the as-written step changes nothing, while the corrected step buys the smaller of 10 and what the cash pays for, at least one share when the cash covers the close |
| TaggedStrategies.SentinelSkipsLiquidation | Trader.java:76-77 | when the last window only falls and shares are held before the last bar, the as-written run keeps those shares and the corrected run sells them |
| TaggedStrategies.ShortSeriesCounterexample | Trader.java:72-77 | 5 shares held over the two closes 100 and 101 stay held with nothing logged as written, and are sold for 505 when corrected |
| TaggedStrategies.SentinelCounterexample | Trader.java:108-115 | 5 shares held over 15 closes falling from 115 to 101 stay held as written, and are sold for 505 when corrected |
| TaggedStrategies.DipAfterRiseRsi | Stock.java:34-53 | one rise against thirteen drops of the same size gives an RSI of 100/14 |
| TaggedStrategies.DipAfterRiseCounterexample | Trader.java:62-119 | a fresh trader with 1000 over closes 100, 101, 100, …, 87 ends holding 10 shares as written, and with 990 in cash and no shares when corrected |

## Left out

- Reading the data file (`CSVReader.java`), the program entry point (`Main.java`) and the commented-out export code in `Stock.java` are not part of this model.
- The trade log file is not written. The header write, its failure return and `logTrade`'s formatting are left out. The log is a sequence of events holding the values `logTrade` receives.
- Events carry the bar's position instead of its date. The position also replaces the stock's identity lookup of the current bar, and the identity test for the last bar.
- Console output (`printf`, `println`) is left out.
- IEEE-754 rounding is left out. Prices and cash are exact reals. An RSI that a rounding error would move off exactly 0.0 or 100 is not modelled.
- Integer overflow of the share count, and the saturation of `(int)` on huge or non-finite quotients, are left out. Counts are unbounded integers.
- `Math.sqrt` is not computed. Variance is used instead, and a standard deviation is any non-negative sd whose square is the variance (`Statistics.IsStdDev`). `Math.pow(x, 2)` is an exact square.
- `Statistics.Mean` and `Statistics.Variance` require a non-empty window. Java would return NaN on an empty array, but the band strategy always passes 14 closes.
- The RSI and EMA require a period of at least 1. The engine always passes 14.
- The runs require every close to be positive. `Trader.runAlgoOne`, `Trader.runAlgoTwo` and `Trader.runAlgoThree` divide the cash by the close without checking it.
- Strategies.RunAlgoTwo: states solvency, the short-series case and the last-bar outcome for the whole run. The per-bar trading on the signal is stated bar by bar in `Strategies.StepTwo` and `Strategies.TradeBar`, not re-stated for the run.
- Strategies.RunAlgoThree: states solvency and the short-series case for the whole run. The per-bar buy, sell and hold behaviour is stated bar by bar in `Strategies.StepThree`, not re-stated for the run.

## Findings

| source | as written | input that shows it | evidently intended | confidence | as-written member | corrected member |
|---|---|---|---|---|---|---|
| Trader.java:76-77 | the momentum strategy treats an RSI of exactly 0.0 as "not enough history" and skips the bar, last-bar liquidation included; but a window with drops and no rise has a computed RSI of exactly 0.0 (Stock.java:52-53), so such a bar is never traded, and when it is the last bar the shares are never sold | a new trader with 1000 in cash over the closes 100, 101, 100, 99, …, 87 (16 bars): at bar 14 the RSI is 100/14 and the close is under the EMA, so it buys 10 shares at 88; the last bar's window only falls, its RSI is 0, and the run ends holding 10 shares with no final sale logged | only missing history skips a bar; an oversold RSI of 0 is a trading signal, and the last bar always liquidates | not executed | TaggedStrategies.DipAfterRiseCounterexample | TaggedStrategies.RunAlgoTwoTagged |
| Trader.java:76-77 | on a series of at most 14 bars no bar has the 14 price changes the RSI needs, so every bar reads the 0.0 sentinel and is skipped, the last one included: the last-bar liquidation of Trader.java:108-115 never runs | a trader holding 5 shares and no cash over the two closes 100 and 101 ends still holding the 5 shares, with nothing logged | the last bar always liquidates, whatever its history | not executed | TaggedStrategies.ShortSeriesCounterexample | TaggedStrategies.RunAlgoTwoTagged |

The as-written strategy is `Strategies.RunAlgoTwo`. `TaggedStrategies.SentinelSkipsLiquidation` states the discrepancy for every input: whenever the last window only falls and shares are held, the as-written run keeps the shares and the corrected run sells them. `TaggedStrategies.SentinelSkipsBuy` states the other half for every earlier bar: whenever its window only falls and its close is under the EMA, the as-written step passes it over and the corrected step buys. `TaggedStrategies.AlgoTwoTaggedAgrees` proves the two runs identical when no window only falls, except on a whole series of at most 14 bars, where only the corrected run liquidates. The corrected variant keeps absence apart from value by making each indicator optional (`TaggedStrategies.RsiValue`, `TaggedStrategies.EmaValue`).
