/**
 * The cash/position state machine of `Backtester.run_backtest`
 * (backtesting.py:66-148) as functions: one `Step` per kept row, the replay
 * `Run` of all rows, and the final valuation `Summarize`. The loop itself is
 * `Backtester.Replay`, proved equal to `Run` followed by `Summarize`.
 */
module Simulation {
  import opened Arith
  import Logic
  import LogicStopLoss
  import opened Frames

  /**
   * The decision rule of a run. The source loop calls the crossover rule of
   * logic.py; `StopLoss` plugs in logic_stop_loss.py, with the purchase price
   * taken from the open BUY record.
   */
  datatype Strategy = Crossover | StopLoss

  /** A BUY, or a SELL with its profit and profit percentage. */
  datatype Action = BuyAction | SellAction(profit: real, profitPct: real)

  /** One entry of `trades`: `amount` units at `price`, for `value` in cash. */
  datatype Trade = Trade(timestamp: int, action: Action, price: real, amount: real, value: real,
                         rsi: real, rsiMa: real, deltaRsi: real, deltaPrice: real)

  /** The loop's variables `cash`, `position`, `position_value`, `in_position` and `trades`. */
  datatype Account = Account(cash: real, position: real, positionValue: real, inPosition: bool, trades: seq<Trade>)

  /** What `run_backtest` returns (`trades`, `final_value`) and what it reports besides. */
  datatype BacktestResult = BacktestResult(trades: seq<Trade>, finalValue: real, totalReturn: real,
                                           totalReturnPct: real, stillHolding: bool)

  ghost predicate PositivePrices(rows: seq<Row>)
  {
    forall k | 0 <= k < |rows| :: rows[k].close > 0.0
  }

  /** The kept rows of a feed with positive closes have positive closes. */
  lemma FramesPositive(bars: seq<Bar>, rsiWindow: nat, maWindow: nat)
    requires 1 <= rsiWindow && 1 <= maWindow
    requires forall k | 0 <= k < |bars| :: bars[k].close > 0.0
    ensures PositivePrices(IndicatorFrames(bars, rsiWindow, maWindow))
  {
    var rows := IndicatorFrames(bars, rsiWindow, maWindow);
    forall k | 0 <= k < |rows|
      ensures rows[k].close > 0.0
    {
      assert rows[k] in rows;
    }
  }

  /** A BUY record: `value` in cash spent on `amount` units at `price`. */
  ghost predicate BuyRecord(t: Trade)
  {
    t.action == BuyAction && t.price > 0.0 && t.value > 0.0 && t.amount > 0.0 && t.amount == t.value / t.price
  }

  /** A SELL record closing the position that `buy` opened. */
  ghost predicate SellRecord(buy: Trade, t: Trade)
  {
    && t.action.SellAction?
    && t.price > 0.0
    && buy.price > 0.0
    && t.amount == buy.amount
    && t.value == t.amount * t.price
    && t.action.profit == t.value - buy.value
    && t.action.profitPct == (t.price / buy.price - 1.0) * 100.0
  }

  ghost predicate LedgerEntry(ts: seq<Trade>, k: nat)
    requires k < |ts|
  {
    if k % 2 == 0 then BuyRecord(ts[k]) else SellRecord(ts[k - 1], ts[k])
  }

  /** BUY, SELL, BUY, ...: even entries are buys, and each sell closes the buy before it. */
  ghost predicate Ledger(ts: seq<Trade>)
  {
    forall k | 0 <= k < |ts| :: LedgerEntry(ts, k)
  }

  /** The loop invariant: invested means no cash; flat means no position and positive cash. */
  ghost predicate Valid(acc: Account)
  {
    && Ledger(acc.trades)
    && (acc.inPosition <==> |acc.trades| % 2 == 1)
    && (acc.inPosition ==>
          && acc.cash == 0.0
          && acc.position > 0.0
          && acc.positionValue > 0.0
          && acc.position == acc.trades[|acc.trades| - 1].amount
          && acc.positionValue == acc.trades[|acc.trades| - 1].value)
    && (!acc.inPosition ==>
          && acc.position == 0.0
          && acc.positionValue == 0.0
          && acc.cash > 0.0
          && (acc.trades != [] ==> acc.cash == acc.trades[|acc.trades| - 1].value))
  }

  ghost predicate BuyFunded(ts: seq<Trade>, k: nat, capital: real)
    requires k < |ts|
  {
    k % 2 == 0 ==> ts[k].value == if k == 0 then capital else ts[k - 1].value
  }

  /** All-in: every buy spends the initial capital or what the previous sell raised. */
  ghost predicate Funded(acc: Account, capital: real)
  {
    && (forall k | 0 <= k < |acc.trades| :: BuyFunded(acc.trades, k, capital))
    && (acc.trades == [] ==> acc.cash == capital)
  }

  /** Units that `cash` buys at `price`. */
  function Units(cash: real, price: real): real
    requires price != 0.0
  {
    cash / price
  }

  /** Cash raised by selling `units` at `price`. */
  function Proceeds(units: real, price: real): real
  {
    units * price
  }

  /** `part` as a percentage of `whole`. */
  function Percent(part: real, whole: real): real
    requires whole != 0.0
  {
    part / whole * 100.0
  }

  /** A sale of what `cost` bought at `buyPrice` gains the price move in percent. */
  lemma SaleReturn(units: real, cost: real, buyPrice: real, sellPrice: real)
    requires cost > 0.0 && buyPrice > 0.0 && units == Units(cost, buyPrice)
    ensures Percent(Proceeds(units, sellPrice) - cost, cost) == (sellPrice / buyPrice - 1.0) * 100.0
  {
    ProfitShare(units, cost, buyPrice, sellPrice);
  }

  /** Cash plus the position marked at `price`. */
  function Equity(acc: Account, price: real): real
  {
    acc.cash + (if acc.inPosition then Proceeds(acc.position, price) else 0.0)
  }

  /** The price of the open BUY, which the stop-loss rule compares against. */
  function EntryPrice(acc: Account): (p: real)
    requires Valid(acc)
    ensures acc.inPosition ==> p > 0.0
  {
    if acc.inPosition then
      assert LedgerEntry(acc.trades, |acc.trades| - 1);
      acc.trades[|acc.trades| - 1].price
    else 0.0
  }

  /** The buy signal of the selected rule, from the previous and the current row. */
  function WantsBuy(strategy: Strategy, prev: Row, cur: Row, inPosition: bool): (b: bool)
    ensures b <==> cur.rsi > cur.rsiMa && cur.close > prev.close && (strategy == StopLoss ==> !inPosition)
  {
    match strategy
    case Crossover => Logic.Buy(prev.rsi, cur.rsi, cur.rsiMa, cur.close, prev.close)
    case StopLoss => LogicStopLoss.CheckForBuy(cur.rsi, cur.rsiMa, cur.close, prev.close, inPosition)
  }

  /** The sell signal of the selected rule. */
  function WantsSell(strategy: Strategy, prev: Row, cur: Row, inPosition: bool, purchasePrice: real): (b: bool)
    ensures strategy == Crossover ==> (b <==> cur.rsi < cur.rsiMa && cur.close < prev.close)
    ensures strategy == StopLoss ==>
              (b <==> inPosition && (cur.close < purchasePrice * LogicStopLoss.StopLossFactor || cur.rsi < cur.rsiMa))
  {
    match strategy
    case Crossover => Logic.Sell(prev.rsi, cur.rsi, cur.rsiMa, cur.close, prev.close)
    case StopLoss => LogicStopLoss.CheckForSell(cur.rsi, cur.rsiMa, cur.close, purchasePrice, inPosition)
  }

  /** Appending an entry that fits keeps a ledger a ledger. */
  lemma LedgerAppend(ts: seq<Trade>, t: Trade)
    requires Ledger(ts)
    requires if |ts| % 2 == 0 then BuyRecord(t) else SellRecord(ts[|ts| - 1], t)
    ensures Ledger(ts + [t])
  {
    var ts' := ts + [t];
    forall k | 0 <= k < |ts'|
      ensures LedgerEntry(ts', k)
    {
      if k < |ts| {
        assert LedgerEntry(ts, k);
      }
    }
  }

  /**
   * A trade logged at bar `cur` carries that bar's timestamp, close, RSI and
   * RSI average, and the RSI and price moves since the bar `prev` before it.
   */
  predicate RecordsBar(t: Trade, prev: Row, cur: Row)
  {
    && t.timestamp == cur.timestamp && t.price == cur.close
    && t.rsi == cur.rsi && t.rsiMa == cur.rsiMa
    && t.deltaRsi == cur.rsi - prev.rsi && t.deltaPrice == cur.close - prev.close
  }

  /** All-in buy at the current close (backtesting.py:90-111). */
  function ExecuteBuy(acc: Account, prev: Row, cur: Row): (r: Account)
    requires Valid(acc) && !acc.inPosition && cur.close > 0.0
    ensures Valid(r) && r.inPosition
    ensures |r.trades| == |acc.trades| + 1 && r.trades[..|acc.trades|] == acc.trades
    ensures RecordsBar(r.trades[|acc.trades|], prev, cur)
    ensures r.trades[|acc.trades|].value == acc.cash
    ensures Equity(r, cur.close) == acc.cash
  {
    var position := Units(acc.cash, cur.close);
    DivMul(acc.cash, cur.close);
    var trade := Trade(cur.timestamp, BuyAction, cur.close, position, acc.cash,
                       cur.rsi, cur.rsiMa, cur.rsi - prev.rsi, cur.close - prev.close);
    LedgerAppend(acc.trades, trade);
    assert (acc.trades + [trade])[..|acc.trades|] == acc.trades;
    Account(0.0, position, acc.cash, true, acc.trades + [trade])
  }

  /** All-out sell at the current close (backtesting.py:116-143). */
  function ExecuteSell(acc: Account, prev: Row, cur: Row): (r: Account)
    requires Valid(acc) && acc.inPosition && cur.close > 0.0
    ensures Valid(r) && !r.inPosition
    ensures |r.trades| == |acc.trades| + 1 && r.trades[..|acc.trades|] == acc.trades
    ensures RecordsBar(r.trades[|acc.trades|], prev, cur)
    ensures r.cash == Equity(acc, cur.close)
    ensures r.trades[|acc.trades|].action.SellAction?
    ensures r.trades[|acc.trades|].action.profitPct == (cur.close / EntryPrice(acc) - 1.0) * 100.0
  {
    var cash := Proceeds(acc.position, cur.close);
    var profit := cash - acc.positionValue;
    var profitPct := Percent(profit, acc.positionValue);
    var buy := acc.trades[|acc.trades| - 1];
    assert LedgerEntry(acc.trades, |acc.trades| - 1);
    SaleReturn(acc.position, acc.positionValue, buy.price, cur.close);
    var trade := Trade(cur.timestamp, SellAction(profit, profitPct), cur.close, acc.position, cash,
                       cur.rsi, cur.rsiMa, cur.rsi - prev.rsi, cur.close - prev.close);
    LedgerAppend(acc.trades, trade);
    assert (acc.trades + [trade])[..|acc.trades|] == acc.trades;
    Account(cash, 0.0, 0.0, false, acc.trades + [trade])
  }

  /**
   * One iteration of the loop: buy when flat and the rule says buy, else sell
   * when invested and the rule says sell, else nothing.
   */
  function Step(strategy: Strategy, acc: Account, prev: Row, cur: Row): (r: Account)
    requires Valid(acc) && cur.close > 0.0
    ensures Valid(r)
    ensures Equity(r, cur.close) == Equity(acc, cur.close)
    ensures r.inPosition != acc.inPosition <==>
              if acc.inPosition then WantsSell(strategy, prev, cur, true, EntryPrice(acc))
              else WantsBuy(strategy, prev, cur, false)
    ensures r.inPosition == acc.inPosition ==> r == acc
    ensures r.inPosition != acc.inPosition ==>
              && |r.trades| == |acc.trades| + 1
              && r.trades[..|acc.trades|] == acc.trades
              && RecordsBar(r.trades[|acc.trades|], prev, cur)
    ensures r.inPosition && !acc.inPosition ==> r.trades[|acc.trades|].value == acc.cash
  {
    if !acc.inPosition && WantsBuy(strategy, prev, cur, acc.inPosition) then
      ExecuteBuy(acc, prev, cur)
    else if acc.inPosition && WantsSell(strategy, prev, cur, acc.inPosition, EntryPrice(acc)) then
      ExecuteSell(acc, prev, cur)
    else
      acc
  }

  /** A step keeps every buy funded by the cash before it. */
  lemma StepFunded(strategy: Strategy, acc: Account, prev: Row, cur: Row, capital: real)
    requires Valid(acc) && Funded(acc, capital) && cur.close > 0.0
    ensures Funded(Step(strategy, acc, prev, cur), capital)
  {
    var r := Step(strategy, acc, prev, cur);
    if r.inPosition != acc.inPosition {
      forall k | 0 <= k < |r.trades|
        ensures BuyFunded(r.trades, k, capital)
      {
        if k < |acc.trades| {
          assert BuyFunded(acc.trades, k, capital);
          assert r.trades[k] == acc.trades[k];
          assert 0 < k ==> r.trades[k - 1] == acc.trades[k - 1];
        }
      }
    }
  }

  /** The account after replaying `rows` from the initial capital: the loop over `range(1, len(bars))`. */
  function Run(strategy: Strategy, rows: seq<Row>, capital: real): (acc: Account)
    requires capital > 0.0 && PositivePrices(rows)
    ensures Valid(acc) && Funded(acc, capital)
    ensures acc.trades == [] || |acc.trades| < |rows|
    decreases |rows|
  {
    if |rows| <= 1 then Account(capital, 0.0, 0.0, false, [])
    else
      var before := Run(strategy, rows[..|rows| - 1], capital);
      StepFunded(strategy, before, rows[|rows| - 2], rows[|rows| - 1], capital);
      Step(strategy, before, rows[|rows| - 2], rows[|rows| - 1])
  }

  /** A buy step, as the loop body computes it. */
  lemma BuyStep(strategy: Strategy, acc: Account, prev: Row, cur: Row, units: real)
    requires Valid(acc) && cur.close > 0.0
    requires !acc.inPosition && WantsBuy(strategy, prev, cur, false) && units == Units(acc.cash, cur.close)
    ensures Step(strategy, acc, prev, cur)
            == Account(0.0, units, acc.cash, true,
                       acc.trades + [Trade(cur.timestamp, BuyAction, cur.close, units, acc.cash,
                                           cur.rsi, cur.rsiMa, cur.rsi - prev.rsi, cur.close - prev.close)])
  {
  }

  /** A sell step, as the loop body computes it. */
  lemma SellStep(strategy: Strategy, acc: Account, prev: Row, cur: Row, cash: real, trade: Trade)
    requires Valid(acc) && cur.close > 0.0
    requires acc.inPosition && WantsSell(strategy, prev, cur, true, EntryPrice(acc))
    requires cash == Proceeds(acc.position, cur.close)
    requires trade == Trade(cur.timestamp, SellAction(cash - acc.positionValue, Percent(cash - acc.positionValue, acc.positionValue)),
                            cur.close, acc.position, cash, cur.rsi, cur.rsiMa, cur.rsi - prev.rsi, cur.close - prev.close)
    ensures Step(strategy, acc, prev, cur) == Account(cash, 0.0, 0.0, false, acc.trades + [trade])
  {
  }

  /** Replaying one more row is one more step. */
  lemma RunExtend(strategy: Strategy, rows: seq<Row>, capital: real, i: nat)
    requires capital > 0.0 && PositivePrices(rows) && 1 <= i < |rows|
    ensures PositivePrices(rows[..i]) && PositivePrices(rows[..i + 1])
    ensures Run(strategy, rows[..i + 1], capital)
            == Step(strategy, Run(strategy, rows[..i], capital), rows[i - 1], rows[i])
  {
    assert rows[..i + 1][..i] == rows[..i];
  }

  /** Final valuation (backtesting.py:146-148): cash plus the open position at the last close. */
  function Summarize(acc: Account, rows: seq<Row>, capital: real): (r: BacktestResult)
    requires Valid(acc) && capital > 0.0 && PositivePrices(rows)
    requires acc.inPosition ==> rows != []
    ensures r.trades == acc.trades && r.stillHolding == acc.inPosition
    ensures r.finalValue == if acc.inPosition then acc.position * rows[|rows| - 1].close else acc.cash
    ensures r.finalValue > 0.0
    ensures r.finalValue == capital + r.totalReturn
    ensures r.totalReturnPct == (r.finalValue / capital - 1.0) * 100.0
  {
    var lastClose := if rows != [] then rows[|rows| - 1].close else 0.0;
    var finalValue := Equity(acc, lastClose);
    var totalReturn := finalValue - capital;
    assert acc.inPosition ==> LedgerEntry(acc.trades, |acc.trades| - 1);
    ReturnFraction(finalValue, capital);
    BacktestResult(acc.trades, finalValue, totalReturn, Percent(totalReturn, capital), acc.inPosition)
  }

  /** The result of replaying the indicator frames `rows`. */
  function Outcome(strategy: Strategy, rows: seq<Row>, capital: real): BacktestResult
    requires capital > 0.0 && PositivePrices(rows)
  {
    Summarize(Run(strategy, rows, capital), rows, capital)
  }
}
