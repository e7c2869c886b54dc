/**
 * `Backtester.run_backtest` (backtesting.py:46-162): annotate the feed,
 * drop the undefined rows, replay them bar by bar, and value what is left.
 */
module Backtester {
  import opened Wrappers
  import opened Frames
  import opened Simulation

  /** `self.rsi_window` and `self.ma_window`. */
  const RsiWindow: nat := 14
  const MaWindow: nat := 14

  /**
   * `feed` is what `get_historical_data` returned: None when the fetch failed.
   * No result for a failed fetch or an empty feed; otherwise the trades and
   * valuation of replaying the indicator frames with `strategy`.
   */
  method RunBacktest(feed: Option<seq<Bar>>, strategy: Strategy, initialCapital: real)
    returns (result: Option<BacktestResult>)
    requires initialCapital > 0.0
    requires feed.Some? ==> forall k | 0 <= k < |feed.value| :: feed.value[k].close > 0.0
    ensures result.None? <==> feed.None? || feed.value == []
    ensures result.Some? ==> result.value == Outcome(strategy, IndicatorFrames(feed.value, RsiWindow, MaWindow), initialCapital)
  {
    if feed.None? || |feed.value| == 0 {
      return None;
    }
    var rows := IndicatorFrames(feed.value, RsiWindow, MaWindow);
    FramesPositive(feed.value, RsiWindow, MaWindow);
    var replayed := Replay(rows, strategy, initialCapital);
    result := Some(replayed);
  }

  /**
   * The trading loop and final valuation (backtesting.py:66-148) over the
   * kept rows: all-in on a buy, all-out on a sell, one trade per row at most.
   */
  method Replay(rows: seq<Row>, strategy: Strategy, initialCapital: real) returns (result: BacktestResult)
    requires initialCapital > 0.0 && PositivePrices(rows)
    ensures result == Outcome(strategy, rows, initialCapital)
    ensures Ledger(result.trades) && result.finalValue > 0.0
    ensures result.stillHolding <==> |result.trades| % 2 == 1
  {
    var cash := initialCapital;
    var position := 0.0;
    var positionValue := 0.0;
    var inPosition := false;
    var trades: seq<Trade> := [];

    var i := 1;
    while i < |rows|
      invariant 1 <= i && (rows == [] || i <= |rows|)
      invariant Account(cash, position, positionValue, inPosition, trades)
                == Run(strategy, rows[..if rows == [] then 0 else i], initialCapital)
    {
      RunExtend(strategy, rows, initialCapital, i);
      cash, position, positionValue, inPosition, trades :=
        ProcessBar(strategy, cash, position, positionValue, inPosition, trades, rows[i - 1], rows[i]);
      i := i + 1;
    }
    assert rows[..if rows == [] then 0 else i] == rows;

    result := Summarize(Account(cash, position, positionValue, inPosition, trades), rows, initialCapital);
  }

  /**
   * One pass of the loop body (backtesting.py:72-140): all-in buy when flat
   * and the strategy buys, all-out sell when holding and it sells, nothing
   * otherwise; each trade records the bar, the RSI and the two deltas.
   */
  method ProcessBar(strategy: Strategy, cash: real, position: real, positionValue: real, inPosition: bool,
                    trades: seq<Trade>, prevBar: Row, currentBar: Row)
    returns (cash': real, position': real, positionValue': real, inPosition': bool, trades': seq<Trade>)
    requires Valid(Account(cash, position, positionValue, inPosition, trades)) && currentBar.close > 0.0
    ensures Account(cash', position', positionValue', inPosition', trades')
            == Step(strategy, Account(cash, position, positionValue, inPosition, trades), prevBar, currentBar)
  {
    ghost var acc := Account(cash, position, positionValue, inPosition, trades);
    cash', position', positionValue', inPosition', trades' := cash, position, positionValue, inPosition, trades;
    var deltaRsi := currentBar.rsi - prevBar.rsi;
    var deltaPrice := currentBar.close - prevBar.close;
    var purchasePrice := EntryPrice(Account(cash, position, positionValue, inPosition, trades));
    if !inPosition && WantsBuy(strategy, prevBar, currentBar, inPosition) {
      position' := Units(cash, currentBar.close);
      BuyStep(strategy, acc, prevBar, currentBar, position');
      positionValue' := cash;
      trades' := trades + [Trade(currentBar.timestamp, BuyAction, currentBar.close, position', cash,
                                 currentBar.rsi, currentBar.rsiMa, deltaRsi, deltaPrice)];
      cash' := 0.0;
      inPosition' := true;
    } else if inPosition && WantsSell(strategy, prevBar, currentBar, inPosition, purchasePrice) {
      cash' := Proceeds(position, currentBar.close);
      var profit := cash' - positionValue;
      var profitPct := Percent(profit, positionValue);
      var trade := Trade(currentBar.timestamp, SellAction(profit, profitPct), currentBar.close, position, cash',
                         currentBar.rsi, currentBar.rsiMa, deltaRsi, deltaPrice);
      SellStep(strategy, acc, prevBar, currentBar, cash', trade);
      trades' := trades + [trade];
      position' := 0.0;
      positionValue' := 0.0;
      inPosition' := false;
    }
  }
}
