/**
 * What a whole run promises: all-in trading compounds the capital by the
 * price ratios of the round trips, the ledger of a shorter history is a
 * prefix of the ledger of a longer one, and feeds that never lift the RSI
 * above its average never trade.
 */
module Properties {
  import opened Arith
  import opened Frames
  import opened Simulation

  /** The product of sell price over buy price for the first `n` round trips of a ledger. */
  function Growth(ts: seq<Trade>, n: nat): (g: real)
    requires Ledger(ts) && 2 * n <= |ts|
    ensures g > 0.0
    decreases n
  {
    if n == 0 then 1.0
    else
      assert LedgerEntry(ts, 2 * n - 1);
      var ratio := ts[2 * n - 1].price / ts[2 * n - 2].price;
      var before := Growth(ts, n - 1);
      assert ratio > 0.0;
      before * ratio
  }

  /** The `n`-th round trip sells what its buy bought. */
  lemma RoundTrip(ts: seq<Trade>, n: nat)
    requires Ledger(ts) && 1 <= n && 2 * n <= |ts|
    ensures ts[2 * n - 2].price != 0.0
    ensures ts[2 * n - 1].amount == ts[2 * n - 2].value / ts[2 * n - 2].price
    ensures ts[2 * n - 1].value == ts[2 * n - 1].amount * ts[2 * n - 1].price
  {
    assert LedgerEntry(ts, 2 * n - 2) && LedgerEntry(ts, 2 * n - 1);
  }

  /** The `n`-th sell raises the capital times the growth of the first `n` round trips. */
  lemma {:induction false} SellCompounds(ts: seq<Trade>, capital: real, n: nat)
    requires Ledger(ts) && forall k | 0 <= k < |ts| :: BuyFunded(ts, k, capital)
    requires 1 <= n && 2 * n <= |ts|
    ensures ts[2 * n - 1].value == capital * Growth(ts, n)
    decreases n
  {
    var buy, sell := ts[2 * n - 2], ts[2 * n - 1];
    RoundTrip(ts, n);
    assert BuyFunded(ts, 2 * n - 2, capital);
    var before := Growth(ts, n - 1);
    if n > 1 {
      SellCompounds(ts, capital, n - 1);
    }
    Compound(capital, before, buy.value, buy.price, sell.amount, sell.price, sell.value);
  }

  /** Flat, the cash is the compounded capital; invested, so is the cost of the position. */
  lemma CashCompounds(acc: Account, capital: real)
    requires Valid(acc) && Funded(acc, capital)
    ensures !acc.inPosition ==> acc.cash == capital * Growth(acc.trades, |acc.trades| / 2)
    ensures acc.inPosition ==> acc.positionValue == capital * Growth(acc.trades, |acc.trades| / 2)
  {
    var ts := acc.trades;
    var n := |ts| / 2;
    if n > 0 {
      SellCompounds(ts, capital, n);
    }
    if acc.inPosition {
      assert BuyFunded(ts, 2 * n, capital);
    }
  }

  /** Flat at the end: the final value is the compounded capital. */
  lemma FlatSummaryCompounds(acc: Account, rows: seq<Row>, capital: real)
    requires Valid(acc) && Funded(acc, capital) && capital > 0.0 && PositivePrices(rows) && !acc.inPosition
    ensures var r := Summarize(acc, rows, capital);
            var g := Growth(acc.trades, |acc.trades| / 2);
            r.finalValue == capital * g && r.totalReturnPct == (g - 1.0) * 100.0
  {
    var g := Growth(acc.trades, |acc.trades| / 2);
    CashCompounds(acc, capital);
    ScaleBack(capital, g);
    assert Summarize(acc, rows, capital).finalValue / capital == g;
  }

  /** Holding at the end: the compounded capital, moved by the last close over the entry price. */
  lemma HeldSummaryCompounds(acc: Account, rows: seq<Row>, capital: real)
    requires Valid(acc) && Funded(acc, capital) && capital > 0.0 && PositivePrices(rows)
    requires acc.inPosition && rows != []
    ensures var r := Summarize(acc, rows, capital);
            var g := Growth(acc.trades, |acc.trades| / 2);
            r.finalValue == capital * g * (rows[|rows| - 1].close / EntryPrice(acc))
  {
    var g := Growth(acc.trades, |acc.trades| / 2);
    CashCompounds(acc, capital);
    var buy := acc.trades[|acc.trades| - 1];
    var last := rows[|rows| - 1].close;
    assert LedgerEntry(acc.trades, |acc.trades| - 1);
    assert acc.position == buy.value / buy.price;
    Rescale(buy.value, buy.price, last);
  }

  /** The valuation of a funded account, in terms of its round trips. */
  lemma SummaryCompounds(acc: Account, rows: seq<Row>, capital: real)
    requires Valid(acc) && Funded(acc, capital) && capital > 0.0 && PositivePrices(rows)
    requires acc.inPosition ==> rows != []
    ensures var r := Summarize(acc, rows, capital);
            var g := Growth(acc.trades, |acc.trades| / 2);
            && (!acc.inPosition ==> r.finalValue == capital * g && r.totalReturnPct == (g - 1.0) * 100.0)
            && (acc.inPosition ==> r.finalValue == capital * g * (rows[|rows| - 1].close / EntryPrice(acc)))
  {
    if acc.inPosition {
      HeldSummaryCompounds(acc, rows, capital);
    } else {
      FlatSummaryCompounds(acc, rows, capital);
    }
  }

  /**
   * The final value of a run is the initial capital compounded by every
   * completed round trip, times the move since the open buy if one is left.
   */
  lemma FinalValueCompounds(strategy: Strategy, rows: seq<Row>, capital: real, acc: Account)
    requires capital > 0.0 && PositivePrices(rows) && acc == Run(strategy, rows, capital)
    ensures Valid(acc)
    ensures var r := Outcome(strategy, rows, capital);
            var g := Growth(acc.trades, |acc.trades| / 2);
            && r.trades == acc.trades && r.stillHolding == acc.inPosition
            && (!acc.inPosition ==> r.finalValue == capital * g && r.totalReturnPct == (g - 1.0) * 100.0)
            && (acc.inPosition ==> rows != [] && r.finalValue == capital * g * (rows[|rows| - 1].close / EntryPrice(acc)))
  {
    SummaryCompounds(acc, rows, capital);
  }

  /** Replaying more rows only appends to the ledger: what was traded stays traded. */
  lemma {:induction false} LedgerGrowsOverTime(strategy: Strategy, rows: seq<Row>, capital: real, m: nat)
    requires capital > 0.0 && PositivePrices(rows) && m <= |rows|
    ensures PositivePrices(rows[..m])
    ensures Run(strategy, rows[..m], capital).trades <= Run(strategy, rows, capital).trades
    decreases |rows|
  {
    if m < |rows| {
      var shorter := rows[..|rows| - 1];
      assert shorter[..m] == rows[..m];
      LedgerGrowsOverTime(strategy, shorter, capital, m);
      if |rows| > 1 {
        var acc := Run(strategy, shorter, capital);
        var r := Step(strategy, acc, rows[|rows| - 2], rows[|rows| - 1]);
        assert Run(strategy, rows, capital) == r;
        assert acc.trades <= r.trades;
      }
    } else {
      assert rows[..m] == rows;
    }
  }

  /**
   * No look-ahead: the trades of a backtest over the first `n` bars are the
   * first trades of the backtest over the whole feed.
   */
  lemma NoLookAhead(strategy: Strategy, bars: seq<Bar>, rsiWindow: nat, maWindow: nat, capital: real, n: nat)
    requires 1 <= rsiWindow && 1 <= maWindow && capital > 0.0 && n <= |bars|
    requires forall k | 0 <= k < |bars| :: bars[k].close > 0.0
    ensures PositivePrices(IndicatorFrames(bars[..n], rsiWindow, maWindow))
    ensures PositivePrices(IndicatorFrames(bars, rsiWindow, maWindow))
    ensures Outcome(strategy, IndicatorFrames(bars[..n], rsiWindow, maWindow), capital).trades
            <= Outcome(strategy, IndicatorFrames(bars, rsiWindow, maWindow), capital).trades
  {
    var early := IndicatorFrames(bars[..n], rsiWindow, maWindow);
    var all := IndicatorFrames(bars, rsiWindow, maWindow);
    FramesPositive(bars[..n], rsiWindow, maWindow);
    FramesPositive(bars, rsiWindow, maWindow);
    FramesOfPrefix(bars, rsiWindow, maWindow, n);
    assert all[..|early|] == early;
    LedgerGrowsOverTime(strategy, all, capital, |early|);
  }

  /** Neither rule buys while the RSI stays at or below its average, so nothing is ever traded. */
  lemma {:induction false} NoTradeBelowAverage(strategy: Strategy, rows: seq<Row>, capital: real)
    requires capital > 0.0 && PositivePrices(rows)
    requires forall k | 0 <= k < |rows| :: rows[k].rsi <= rows[k].rsiMa
    ensures Run(strategy, rows, capital) == Account(capital, 0.0, 0.0, false, [])
    decreases |rows|
  {
    if |rows| > 1 {
      NoTradeBelowAverage(strategy, rows[..|rows| - 1], capital);
    }
  }

  /** An untraded run ends with the initial capital and a zero return. */
  lemma UntradedRunKeepsCapital(strategy: Strategy, rows: seq<Row>, capital: real)
    requires capital > 0.0 && PositivePrices(rows)
    requires Run(strategy, rows, capital).trades == []
    ensures var r := Outcome(strategy, rows, capital);
            r.finalValue == capital && r.totalReturn == 0.0 && r.totalReturnPct == 0.0
  {
  }

  /** A flat price feed never produces an indicator row, hence no trade and no return. */
  lemma ConstantFeedNoTrades(strategy: Strategy, bars: seq<Bar>, rsiWindow: nat, maWindow: nat, capital: real)
    requires 1 <= rsiWindow && 1 <= maWindow && capital > 0.0
    requires forall k | 0 <= k < |bars| :: bars[k].close == bars[0].close
    ensures PositivePrices(IndicatorFrames(bars, rsiWindow, maWindow))
    ensures var r := Outcome(strategy, IndicatorFrames(bars, rsiWindow, maWindow), capital);
            r.trades == [] && r.finalValue == capital
  {
    ConstantFeedHasNoFrames(bars, rsiWindow, maWindow);
  }

  /**
   * A feed that never falls pins RSI and its average at 100, so the buy
   * condition `rsi > rsi_ma` never holds: no trade and no return.
   */
  lemma RisingFeedNoTrades(strategy: Strategy, bars: seq<Bar>, rsiWindow: nat, maWindow: nat, capital: real)
    requires 1 <= rsiWindow && 1 <= maWindow && capital > 0.0
    requires forall k | 0 <= k < |bars| :: bars[k].close > 0.0
    requires forall a, b | 0 <= a < b < |bars| :: bars[a].close <= bars[b].close
    ensures PositivePrices(IndicatorFrames(bars, rsiWindow, maWindow))
    ensures var r := Outcome(strategy, IndicatorFrames(bars, rsiWindow, maWindow), capital);
            r.trades == [] && r.finalValue == capital
  {
    var rows := IndicatorFrames(bars, rsiWindow, maWindow);
    FramesPositive(bars, rsiWindow, maWindow);
    RisingFeedFramesAtHundred(bars, rsiWindow, maWindow);
    forall k | 0 <= k < |rows|
      ensures rows[k].rsi <= rows[k].rsiMa
    {
      assert rows[k] in rows;
    }
    NoTradeBelowAverage(strategy, rows, capital);
  }

  /** Under the stop-loss rule an open position is always closed once the close falls 1% under the buy. */
  lemma StopLossCloses(acc: Account, prev: Row, cur: Row)
    requires Valid(acc) && acc.inPosition && cur.close > 0.0
    requires cur.close < EntryPrice(acc) * 0.99
    ensures !Step(StopLoss, acc, prev, cur).inPosition
    ensures Step(StopLoss, acc, prev, cur).cash == Equity(acc, cur.close)
  {
  }

  /** A buy at 100 followed by a close of 98.9 is stopped out at a loss of 1.1%. */
  lemma StopLossScenario(acc: Account, prev: Row, cur: Row)
    requires Valid(acc) && acc.inPosition && EntryPrice(acc) == 100.0 && cur.close == 98.9
    ensures var r := Step(StopLoss, acc, prev, cur);
            && !r.inPosition && |r.trades| == |acc.trades| + 1
            && r.trades[|acc.trades|].action.SellAction?
            && r.trades[|acc.trades|].action.profitPct == -1.1
  {
  }
}
