/**
 * The indicator frame of `Backtester.run_backtest` (backtesting.py:57-61):
 * the bars annotated with `rsi` and `rsi_ma`, then `dropna()`.
 */
module Frames {
  import opened Wrappers
  import opened Indicators

  /** One bar of the feed; only its timestamp and close enter the backtest. */
  datatype Bar = Bar(timestamp: int, close: real)

  /** A bar that survived `dropna()`, with its indicator values. */
  datatype Row = Row(timestamp: int, close: real, rsi: real, rsiMa: real)

  /** `bars['close']`. */
  function Closes(bars: seq<Bar>): (closes: seq<real>)
    ensures |closes| == |bars|
    ensures forall k | 0 <= k < |bars| :: closes[k] == bars[k].close
  {
    seq(|bars|, k requires 0 <= k < |bars| => bars[k].close)
  }

  /** Each bar with its RSI and RSI moving average, or None where either is NaN. */
  function Annotate(bars: seq<Bar>, rsiWindow: nat, maWindow: nat): (rows: seq<Option<Row>>)
    requires 1 <= rsiWindow && 1 <= maWindow
    ensures |rows| == |bars|
    ensures forall k | 0 <= k < |bars| ::
              rows[k].Some? <==> CalculateRsi(Closes(bars), rsiWindow)[k].Some?
                                 && RsiMovingAverage(CalculateRsi(Closes(bars), rsiWindow), maWindow)[k].Some?
    ensures forall k | 0 <= k < |bars| && rows[k].Some? ::
              rows[k].value.timestamp == bars[k].timestamp && rows[k].value.close == bars[k].close
              && rows[k].value.rsi == CalculateRsi(Closes(bars), rsiWindow)[k].value
              && rows[k].value.rsiMa == RsiMovingAverage(CalculateRsi(Closes(bars), rsiWindow), maWindow)[k].value
              && 0.0 <= rows[k].value.rsi <= 100.0 && 0.0 <= rows[k].value.rsiMa <= 100.0
  {
    var rsi := CalculateRsi(Closes(bars), rsiWindow);
    var rsiMa := RsiMovingAverage(rsi, maWindow);
    MovingAverageBounds(rsi, maWindow);
    seq(|bars|, k requires 0 <= k < |bars| =>
      if rsi[k].Some? && rsiMa[k].Some? then Some(Row(bars[k].timestamp, bars[k].close, rsi[k].value, rsiMa[k].value))
      else None)
  }

  /** `dropna()`: the defined rows, in their order. */
  function DropNa(rows: seq<Option<Row>>): (kept: seq<Row>)
    ensures |kept| <= |rows|
    ensures forall x :: x in kept <==> Some(x) in rows
  {
    if rows == [] then []
    else
      assert rows == rows[..|rows| - 1] + [rows[|rows| - 1]];
      DropNa(rows[..|rows| - 1]) + (if rows[|rows| - 1].Some? then [rows[|rows| - 1].value] else [])
  }

  /** The rows the backtest loop replays. */
  function IndicatorFrames(bars: seq<Bar>, rsiWindow: nat, maWindow: nat): (frames: seq<Row>)
    requires 1 <= rsiWindow && 1 <= maWindow
    ensures |frames| <= |bars|
    ensures forall x | x in frames :: 0.0 <= x.rsi <= 100.0 && 0.0 <= x.rsiMa <= 100.0
    ensures forall x | x in frames :: exists k | 0 <= k < |bars| :: bars[k].timestamp == x.timestamp && bars[k].close == x.close
  {
    var rows := Annotate(bars, rsiWindow, maWindow);
    assert forall x | Some(x) in rows :: exists k | 0 <= k < |bars| :: rows[k] == Some(x);
    DropNa(rows)
  }

  /** Dropping undefined rows commutes with concatenation. */
  lemma {:induction false} DropNaAppend(a: seq<Option<Row>>, b: seq<Option<Row>>)
    ensures DropNa(a + b) == DropNa(a) + DropNa(b)
  {
    if b == [] {
      assert a + b == a;
    } else {
      DropNaAppend(a, b[..|b| - 1]);
      assert (a + b)[..|a + b| - 1] == a + b[..|b| - 1];
    }
  }

  /** No row is defined before both warm-ups have passed: bar k needs k + 2 >= rsiWindow + maWindow. */
  lemma AnnotateWarmUp(bars: seq<Bar>, rsiWindow: nat, maWindow: nat, k: nat)
    requires 1 <= rsiWindow && 1 <= maWindow && k < |bars|
    requires Annotate(bars, rsiWindow, maWindow)[k].Some?
    ensures rsiWindow + maWindow <= k + 2
  {
    var rsi := CalculateRsi(Closes(bars), rsiWindow);
    assert rsi[k + 1 - maWindow].Some?;
  }

  /**
   * The warm-up bound is tight: when every close differs from the one before
   * (and the RSI window spans at least one move), bar k has a row exactly
   * when k + 2 >= rsiWindow + maWindow; the first row is bar rsiWindow + maWindow - 2.
   */
  lemma MovingFeedRowsAfterWarmUp(bars: seq<Bar>, rsiWindow: nat, maWindow: nat)
    requires 2 <= rsiWindow && 1 <= maWindow
    requires forall k | 0 < k < |bars| :: bars[k].close != bars[k - 1].close
    ensures forall k | 0 <= k < |bars| :: Annotate(bars, rsiWindow, maWindow)[k].Some? <==> rsiWindow + maWindow <= k + 2
  {
    var closes := Closes(bars);
    var rsi := CalculateRsi(closes, rsiWindow);
    forall j | rsiWindow - 1 <= j < |bars|
      ensures rsi[j].Some?
    {
      RsiDefinedIff(closes, rsiWindow, j);
      assert closes[j] != closes[j - 1];
    }
    forall k | 0 <= k < |bars|
      ensures Annotate(bars, rsiWindow, maWindow)[k].Some? <==> rsiWindow + maWindow <= k + 2
    {
      if Annotate(bars, rsiWindow, maWindow)[k].Some? {
        AnnotateWarmUp(bars, rsiWindow, maWindow, k);
      }
    }
  }

  /** No look-ahead: annotating a truncated feed gives the truncated annotation. */
  lemma AnnotateOfPrefix(bars: seq<Bar>, rsiWindow: nat, maWindow: nat, n: nat)
    requires 1 <= rsiWindow && 1 <= maWindow && n <= |bars|
    ensures Annotate(bars[..n], rsiWindow, maWindow) == Annotate(bars, rsiWindow, maWindow)[..n]
  {
    assert Closes(bars[..n]) == Closes(bars)[..n];
    var rsi := CalculateRsi(Closes(bars), rsiWindow);
    RsiOfPrefix(Closes(bars), rsiWindow, n);
    MovingAverageOfPrefix(rsi, maWindow, n);
  }

  /** No look-ahead: the frames of a truncated feed are a prefix of the full feed's frames. */
  lemma FramesOfPrefix(bars: seq<Bar>, rsiWindow: nat, maWindow: nat, n: nat)
    requires 1 <= rsiWindow && 1 <= maWindow && n <= |bars|
    ensures IndicatorFrames(bars[..n], rsiWindow, maWindow) <= IndicatorFrames(bars, rsiWindow, maWindow)
  {
    var rows := Annotate(bars, rsiWindow, maWindow);
    AnnotateOfPrefix(bars, rsiWindow, maWindow, n);
    assert rows == rows[..n] + rows[n..];
    DropNaAppend(rows[..n], rows[n..]);
  }

  /** A feed with one constant close has no defined RSI, so every row is dropped. */
  lemma ConstantFeedHasNoFrames(bars: seq<Bar>, rsiWindow: nat, maWindow: nat)
    requires 1 <= rsiWindow && 1 <= maWindow
    requires forall k | 0 <= k < |bars| :: bars[k].close == bars[0].close
    ensures IndicatorFrames(bars, rsiWindow, maWindow) == []
  {
    var closes := Closes(bars);
    ConstantPricesHaveNoRsi(closes, rsiWindow);
    DropNaOfUndefined(Annotate(bars, rsiWindow, maWindow));
  }

  /** Nothing is kept of rows that are all undefined. */
  lemma {:induction false} DropNaOfUndefined(rows: seq<Option<Row>>)
    requires forall k | 0 <= k < |rows| :: rows[k].None?
    ensures DropNa(rows) == []
  {
    if rows != [] {
      DropNaOfUndefined(rows[..|rows| - 1]);
    }
  }

  /** With no falling close, every kept row has RSI 100 and RSI average 100. */
  lemma RisingFeedFramesAtHundred(bars: seq<Bar>, rsiWindow: nat, maWindow: nat)
    requires 1 <= rsiWindow && 1 <= maWindow
    requires forall a, b | 0 <= a < b < |bars| :: bars[a].close <= bars[b].close
    ensures forall x | x in IndicatorFrames(bars, rsiWindow, maWindow) :: x.rsi == 100.0 && x.rsiMa == 100.0
  {
    var closes := Closes(bars);
    RisingPricesRsiIsHundred(closes, rsiWindow);
    var rsi := CalculateRsi(closes, rsiWindow);
    MovingAverageOfConstant(rsi, maWindow, 100.0);
    var rows := Annotate(bars, rsiWindow, maWindow);
    forall x | x in DropNa(rows)
      ensures x.rsi == 100.0 && x.rsiMa == 100.0
    {
      assert Some(x) in rows;
      var k :| 0 <= k < |rows| && rows[k] == Some(x);
    }
  }
}
