# RSI backtester, modelled in Dafny

This project models the single-asset RSI backtester of `backend/backtesting/`.
It covers four parts:

- **The two decision rules.** The crossover rule `buy`/`sell` of `logic.py` (version 1) and the stop-loss rule `check_for_buy`/`check_for_sell` of `logic_stop_loss.py`.
- **The indicators.** `Backtester.calculate_rsi` computes the RSI of the closes. It takes the rolling mean of the upward and the downward moves and applies `100 - 100 / (1 + gain / loss)`. `rsi_ma` is the rolling mean of that RSI.
- **The indicator frame.** `dropna()` removes every bar whose RSI or `rsi_ma` is undefined.
- **The replay loop of `Backtester.run_backtest`.** It keeps `cash`, `position`, `position_value`, `in_position` and the `trades` list. It buys all-in when flat and the rule says buy, and sells all-out when invested and the rule says sell. At the end it values the account at the last close.

Prices, cash and indicator values are Dafny `real`, so all arithmetic is exact. A pandas series that may hold NaN is a `seq<Option<real>>`, with `None` for NaN.

The modules, each in its own file:

- `Wrappers`: `Option`.
- `Arith`: facts about real division used by the proofs.
- `Logic`: the crossover rule.
- `LogicStopLoss`: the stop-loss rule.
- `Indicators`: rolling mean, gains and losses, RSI, and the RSI moving average.
- `Frames`: bars, annotated rows and `dropna`.
- `Simulation`: the state machine as functions, with the ledger invariant. `Step` is one bar, `Run` replays all rows, and `Summarize` is the final valuation.
- `Backtester`: `RunBacktest`, the replay loop `Replay` and its loop body `ProcessBar`, as methods proved equal to `Run` and `Summarize`.
- `Properties`: whole-run properties.
  - Compounding: the final value is the initial capital times the product of the sell/buy price ratios.
  - No look-ahead.
  - Feeds that never trade.
  - The stop-loss scenario.

The source loop calls the crossover rule. The model makes the rule a parameter (`Strategy`):

- `Crossover` is what the source does.
- `StopLoss` plugs `logic_stop_loss.py` into the same loop. Its purchase price is the price of the open BUY record.

Three behaviours of the code that are easy to get wrong:

- **RSI warm-up.** The RSI is defined from index `window - 1`, not `window`. `prices.diff()` leaves NaN at index 0. `delta.where(delta > 0, 0)` replaces every entry that fails the test, NaN included, with 0. So the first gain and the first loss are 0, not NaN. Likewise, a row survives `dropna()` only from index `rsi_window + ma_window - 2` on (`AnnotateWarmUp`), and on a feed whose every close moves that bound is reached (`MovingFeedRowsAfterWarmUp`).
- **A rising feed never buys.** With no falling close, every defined RSI is 100, so every defined `rsi_ma` is 100. The buy condition `rsi_now > rsi_ma` then never holds, so the run makes no trade and ends with the initial capital (`RisingFeedNoTrades`).
- **No minimum row count.** Only an empty or missing feed is refused (backtesting.py:51-53). A feed whose rows are all dropped simply runs no iteration.

## Model

| member | source | states |
|---|---|---|
| Logic.Buy | backend/backtesting/logic.py:2-7 | buy is true iff `rsi_now > rsi_ma` and the price rose (`current_price - prev_price > 0`) |
| Logic.Sell | backend/backtesting/logic.py:9-14 | sell is true iff `rsi_now < rsi_ma` and the price fell |
| Logic.BuyAndSellExclusive | backend/backtesting/logic.py:5-12 | buy and sell never hold for the same arguments |
| Logic.SignalsIgnoreRsiPrev | backend/backtesting/logic.py:3-10 | neither signal depends on `rsi_prev`: `delta_rsi` is computed and unused |
| Logic.NoSignalOnUnchangedPrice | backend/backtesting/logic.py:5-12 | an unchanged price gives neither signal (strict comparisons) |
| Logic.NoSignalAtAverage | backend/backtesting/logic.py:5-12 | an RSI equal to its average gives neither signal |
| LogicStopLoss.CheckForBuy | backend/backtesting/logic_stop_loss.py:17-23 | true iff `rsi_now > rsi_ma`, the price rose and not invested |
| LogicStopLoss.CheckForSell | backend/backtesting/logic_stop_loss.py:40-52 | false when not invested; when invested, true iff the price is below `purchase_price * 0.99` or `rsi_now < rsi_ma` |
| LogicStopLoss.NoBuyWhileInvested | backend/backtesting/logic_stop_loss.py:20 | no buy while invested |
| LogicStopLoss.BuyIsGatedCrossover | backend/backtesting/logic_stop_loss.py:17-23 | the stop-loss buy is the crossover buy of logic.py gated by `not is_invested` |
| LogicStopLoss.NoSellWhileFlat | backend/backtesting/logic_stop_loss.py:40-41 | no sell when not invested, whatever the prices |
| LogicStopLoss.StopLossForcesSell | backend/backtesting/logic_stop_loss.py:44-50 | when invested, a price below 99% of the purchase price forces a sell |
| LogicStopLoss.TrendBreakForcesSell | backend/backtesting/logic_stop_loss.py:47-50 | when invested, `rsi_now < rsi_ma` forces a sell whatever the price |
| LogicStopLoss.HoldIff | backend/backtesting/logic_stop_loss.py:44-52 | when invested, the position is held iff the price is at least 99% of the purchase price and `rsi_now >= rsi_ma` |
| LogicStopLoss.BuyAndSellExclusive | backend/backtesting/logic_stop_loss.py:20-41 | buy and sell never both hold for the same `is_invested` |
| LogicStopLoss.StopLossExample | backend/backtesting/logic_stop_loss.py:43-50 | bought at 100, a price of 98.9 sells whatever the RSI |
| Indicators.Values | backend/backtesting/backtesting.py:21-22 | a window has values iff none of its entries is NaN, and then they are its entries in order |
| Indicators.RollingMean | backend/backtesting/backtesting.py:21-22 | `rolling(window).mean()` is defined at i iff the `w` entries ending at i exist and none is NaN |
| Indicators.MeanAtLeast | backend/backtesting/backtesting.py:21-22 | a rolling mean is at least any lower bound of the series |
| Indicators.MeanAtMost | backend/backtesting/backtesting.py:21-22 | a rolling mean is at most any upper bound of the series |
| Indicators.RollingMeanLocal | backend/backtesting/backtesting.py:21-22 | two series with the same window at i and j have the same rolling mean there |
| Indicators.Gain | backend/backtesting/backtesting.py:20-21 | the gain is non-negative; when positive, it is the rise into bar i; it is 0 at the first bar |
| Indicators.Loss | backend/backtesting/backtesting.py:20-22 | the loss is non-negative; when positive, it is the fall into bar i |
| Indicators.GainLossSplit | backend/backtesting/backtesting.py:20-22 | gain minus loss is the price change, and at most one of them is non-zero |
| Indicators.Gains | backend/backtesting/backtesting.py:21 | the gain series has one defined entry per price |
| Indicators.Losses | backend/backtesting/backtesting.py:22 | the loss series has one defined entry per price |
| Indicators.RsiValue | backend/backtesting/backtesting.py:23-24 | `100 - 100 / (1 + g / l)` is `100 g / (g + l)`; it is undefined iff `g + l == 0` (0/0 is NaN) and 100 when only the loss is 0 |
| Indicators.RsiRatioForm | backend/backtesting/backtesting.py:23-24 | the ratio form equals the share form for a positive average loss |
| Indicators.RsiValueBounds | backend/backtesting/backtesting.py:21-24 | a defined RSI lies in [0, 100]; it is 100 exactly when the average loss is 0, and undefined when both averages are 0 |
| Indicators.RsiAt | backend/backtesting/backtesting.py:20-24 | an RSI defined at i has a full window behind it and lies in [0, 100] |
| Indicators.CalculateRsi | backend/backtesting/backtesting.py:18-25 | one entry per price; undefined before the window fills; in [0, 100] where defined |
| Indicators.SumPositive | backend/backtesting/backtesting.py:21-22 | a sum of non-negative values is positive iff one of them is |
| Indicators.RollingMeanPositive | backend/backtesting/backtesting.py:21-22 | over a complete window of non-negative values, the rolling mean is defined, and positive iff some entry in the window is |
| Indicators.MoveIff | backend/backtesting/backtesting.py:20-22 | bar k has a non-zero gain or loss iff k > 0 and its close differs from the one before |
| Indicators.WindowMoves | backend/backtesting/backtesting.py:20-22 | a window holds some gain or some loss iff some close in it (after the first bar) differs from the one before |
| Indicators.GainsMeanPositive | backend/backtesting/backtesting.py:21 | the average gain over a complete window is defined, and positive iff some bar in it gained |
| Indicators.LossesMeanPositive | backend/backtesting/backtesting.py:22 | the average loss over a complete window is defined, and positive iff some bar in it lost |
| Indicators.RsiDefinedIff | backend/backtesting/backtesting.py:18-25 | once the window is complete, the RSI at i is defined iff some close in the window ending at i differs from the one before |
| Indicators.WindowMean | backend/backtesting/backtesting.py:21-22 | a two-entry rolling mean is the average of the two entries |
| Indicators.TwoBarRsi | backend/backtesting/backtesting.py:18-25 | with window 2, the RSI at i is `RsiValue` of the averages of the gains and of the losses of bars i - 1 and i |
| Indicators.RsiValueExamples | backend/backtesting/backtesting.py:23-24 | average gain 0.5 and loss 0 give 100; gain 0 and loss 0.5 give 0; gain 0.5 and loss 0.25 give 200/3 |
| Indicators.RiseExample | backend/backtesting/backtesting.py:18-25 | closes [1, 2] with window 2 have RSI 100 at bar 1 |
| Indicators.FallExample | backend/backtesting/backtesting.py:18-25 | closes [2, 1] with window 2 have RSI 0 at bar 1 |
| Indicators.MixedExample | backend/backtesting/backtesting.py:18-25 | closes [1, 2, 1.5] with window 2 have RSI 200/3 at bar 2 |
| Indicators.RsiMovingAverage | backend/backtesting/backtesting.py:58 | one entry per RSI; defined iff the `ma_window` RSI values ending there are all defined |
| Indicators.MovingAverageBounds | backend/backtesting/backtesting.py:58 | the moving average of an RSI in [0, 100] lies in [0, 100] |
| Indicators.MovesOfPrefix | backend/backtesting/backtesting.py:20-22 | the gains and losses of a price prefix are the prefix of the gains and losses |
| Indicators.MovesOfWindow | backend/backtesting/backtesting.py:20-22 | the `w` gains and losses ending at i depend only on the `w + 1` prices ending at i |
| Indicators.RsiOfPrefix | backend/backtesting/backtesting.py:18-25 | no look-ahead: the RSI of a truncated series is the truncated RSI |
| Indicators.RsiOfWindow | backend/backtesting/backtesting.py:20-24 | the RSI at i depends only on prices `i - w .. i` |
| Indicators.MovingAverageOfPrefix | backend/backtesting/backtesting.py:58 | no look-ahead: the moving average of a truncated RSI is the truncated average |
| Indicators.MovingAverageOfWindow | backend/backtesting/backtesting.py:58 | `rsi_ma` at i depends only on the RSI of `i - ma_window + 1 .. i` |
| Indicators.ConstantPricesHaveNoRsi | backend/backtesting/backtesting.py:20-24 | a constant price series has no defined RSI |
| Indicators.RisingPricesRsiIsHundred | backend/backtesting/backtesting.py:20-24 | with no falling price, every defined RSI is 100 |
| Indicators.MovingAverageOfConstant | backend/backtesting/backtesting.py:58 | the moving average of a series constant where defined is that constant where defined |
| Frames.Closes | backend/backtesting/backtesting.py:57 | `bars['close']`, entry by entry |
| Frames.Annotate | backend/backtesting/backtesting.py:57-58 | a bar's row is defined iff its RSI and `rsi_ma` are; it keeps the bar's timestamp and close, and its `rsi` and `rsi_ma` are those two series' values at the bar, both in [0, 100] |
| Frames.DropNa | backend/backtesting/backtesting.py:61 | keeps exactly the defined rows and never lengthens |
| Frames.IndicatorFrames | backend/backtesting/backtesting.py:57-61 | every kept row comes from a bar of the feed and carries indicators in [0, 100] |
| Frames.DropNaAppend | backend/backtesting/backtesting.py:61 | `dropna` keeps the order: it distributes over concatenation |
| Frames.AnnotateWarmUp | backend/backtesting/backtesting.py:57-61 | no row is defined before index `rsi_window + ma_window - 2` |
| Frames.MovingFeedRowsAfterWarmUp | backend/backtesting/backtesting.py:57-61 | the warm-up bound is tight: when every close differs from the one before and the RSI window is at least 2, bar k has a row iff k >= `rsi_window + ma_window - 2` |
| Frames.AnnotateOfPrefix | backend/backtesting/backtesting.py:57-58 | no look-ahead: the annotation of a truncated feed is the truncated annotation |
| Frames.FramesOfPrefix | backend/backtesting/backtesting.py:57-61 | no look-ahead: the frames of a truncated feed are a prefix of the frames of the full feed |
| Frames.ConstantFeedHasNoFrames | backend/backtesting/backtesting.py:57-61 | a constant-price feed keeps no row |
| Frames.DropNaOfUndefined | backend/backtesting/backtesting.py:61 | nothing survives `dropna` of all-NaN rows |
| Frames.RisingFeedFramesAtHundred | backend/backtesting/backtesting.py:57-61 | with no falling close, every kept row has RSI 100 and `rsi_ma` 100 |
| Simulation.FramesPositive | backend/backtesting/backtesting.py:57-61 | the kept rows of a feed with positive closes have positive closes |
| Simulation.SaleReturn | backend/backtesting/backtesting.py:116-118 | the profit percentage of selling a whole position is the percentage price move since the buy |
| Simulation.EntryPrice | backend/backtesting/logic_stop_loss.py:26-44 | while invested, the purchase price is positive |
| Simulation.WantsBuy | backend/backtesting/backtesting.py:88 | the selected rule buys iff `rsi > rsi_ma` and the close rose (and, for the stop-loss rule, not invested) |
| Simulation.WantsSell | backend/backtesting/backtesting.py:114 | the selected rule sells on its own condition: crossover `rsi < rsi_ma` with a fall, or stop-loss/trend-break while invested |
| Simulation.ExecuteBuy | backend/backtesting/backtesting.py:88-111 | an all-in buy keeps the invariant, becomes invested, appends one BUY that spends all cash and records the bar (timestamp, close, `rsi`, `rsi_ma`, and the RSI and price moves since the previous bar), and keeps the equity at that close |
| Simulation.ExecuteSell | backend/backtesting/backtesting.py:114-143 | an all-out sell keeps the invariant, goes flat with cash equal to the equity at the close, and appends a SELL that records the bar like a BUY and whose `profit_pct` is the price move since the buy |
| Simulation.Step | backend/backtesting/backtesting.py:87-143 | one bar keeps the invariant and the equity at its close; the state flips iff the rule signals; otherwise nothing changes; a flip appends exactly one trade, which records this bar's timestamp, close, `rsi` and `rsi_ma` and the deltas `rsi - prev_rsi` and `close - prev_close` |
| Simulation.StepFunded | backend/backtesting/backtesting.py:90-91 | every buy spends the initial capital or the proceeds of the previous sell |
| Simulation.Run | backend/backtesting/backtesting.py:66-143 | after any number of bars: invested iff the ledger is odd; invested means no cash and a positive position; flat means no position and positive cash; the ledger alternates BUY, SELL and each sell closes the previous buy; fewer trades than rows |
| Simulation.Summarize | backend/backtesting/backtesting.py:146-148 | final value is the cash, or the position at the last close when invested; it is positive; `final_value == initial_capital + total_return`; `total_return_pct` is the percentage change of the capital |
| Backtester.RunBacktest | backend/backtesting/backtesting.py:46-61 | no result iff the feed is missing or empty; otherwise the replay of the indicator frames with 14/14 windows |
| Backtester.Replay | backend/backtesting/backtesting.py:66-148 | the loop's trades and valuation are those of `Run` and `Summarize`; the ledger alternates; the final value is positive; still holding iff the ledger is odd |
| Backtester.ProcessBar | backend/backtesting/backtesting.py:74-143 | one loop iteration updates the five variables exactly as `Step` |
| Properties.Growth | backend/backtesting/backtesting.py:90-116 | the compounded ratio of sell price to buy price over round trips is positive |
| Properties.RoundTrip | backend/backtesting/backtesting.py:90-131 | a sell sells the units its buy bought, for units times price |
| Properties.SellCompounds | backend/backtesting/backtesting.py:90-131 | the n-th sell raises the initial capital times the growth of the first n round trips |
| Properties.CashCompounds | backend/backtesting/backtesting.py:66-143 | flat, the cash is the compounded capital; invested, the position cost is |
| Properties.FlatSummaryCompounds | backend/backtesting/backtesting.py:146-148 | flat at the end: the final value is the compounded capital and the return percentage is the growth minus one, in percent |
| Properties.HeldSummaryCompounds | backend/backtesting/backtesting.py:146-148 | holding at the end: the compounded capital times the last close over the entry price |
| Properties.SummaryCompounds | backend/backtesting/backtesting.py:146-148 | both cases of the final valuation of a funded account |
| Properties.FinalValueCompounds | backend/backtesting/backtesting.py:66-148 | the outcome of a run is the initial capital compounded over its round trips, times the open move if still holding |
| Properties.LedgerGrowsOverTime | backend/backtesting/backtesting.py:74-143 | replaying more rows only appends trades |
| Properties.NoLookAhead | backend/backtesting/backtesting.py:57-148 | the trades of a backtest over the first n bars are a prefix of the trades over the whole feed |
| Properties.NoTradeBelowAverage | backend/backtesting/backtesting.py:88 | if the RSI never exceeds its average, neither rule trades and the account stays at the initial capital |
| Properties.UntradedRunKeepsCapital | backend/backtesting/backtesting.py:146-148 | an empty ledger ends at the initial capital with zero return |
| Properties.ConstantFeedNoTrades | backend/backtesting/backtesting.py:57-148 | a constant-price feed trades nothing and ends at the initial capital |
| Properties.RisingFeedNoTrades | backend/backtesting/backtesting.py:57-148 | a never-falling feed trades nothing and ends at the initial capital |
| Properties.StopLossCloses | backend/backtesting/logic_stop_loss.py:43-50 | with the stop-loss rule, a close under 99% of the entry price always closes the position, at the equity of that close |
| Properties.StopLossScenario | backend/backtesting/logic_stop_loss.py:43-50 | bought at 100, a close of 98.9 sells at a profit percentage of -1.1 |

## Left out

- Fetching the bars (`get_historical_data`, the Alpaca client, `__init__`): the feed is an input `Option<seq<Bar>>`, with `None` when the fetch failed.
- All `print` output and the `__main__` block: console I/O and environment loading.
- Version 2 (GBM Monte Carlo) and version 3 (global mutable state) of `logic.py`: they are commented out.
- IEEE floating point: rounding, `inf` and NaN arithmetic are exact `real` arithmetic and `Option` here. The RSI of an average loss of 0 is the limit value 100, and 0/0 is `None`.
- Bar fields other than the timestamp and the close are not modelled. The model assumes they hold no NaN, so `dropna()` removes a bar only when its `rsi` or `rsi_ma` is undefined.
- The default arguments `initial_capital=100` (backtesting.py:46) and `window=14` (backtesting.py:18): the model always passes both explicitly. The capital is a parameter of `Backtester.RunBacktest`, and the window is the constant `Backtester.RsiWindow`, as `run_backtest` passes `self.rsi_window`.
- Backtester.RunBacktest: requires a positive initial capital and positive closes. With a zero close the buy divides by zero. With zero capital the profit and return percentages divide by zero.
- Backtester.Replay and Backtester.ProcessBar: the `trades` list that the source appends to in place is a `seq` that each iteration reassigns.
- Timestamps are not checked for order or duplicates: the code does not check them either.
- The `StopLoss` strategy: the source does not wire `logic_stop_loss.py` into the loop. The model does, as an extension, so that the same replay runs either rule.
