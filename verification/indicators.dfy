/**
 * The indicator engine of backend/backtesting/backtesting.py: the RSI of
 * `Backtester.calculate_rsi` and its rolling mean `rsi_ma`.
 *
 * A pandas series that may hold NaN is a `seq<Option<real>>`, with `None`
 * for NaN. `rolling(window).mean()` is defined at index i only when the
 * window of `window` entries ending at i holds no NaN.
 */
module Indicators {
  import opened Wrappers
  import opened Arith

  /** Sum of a sequence, accumulated left to right. */
  function Sum(xs: seq<real>): real
  {
    if xs == [] then 0.0 else Sum(xs[..|xs| - 1]) + xs[|xs| - 1]
  }

  lemma {:induction false} SumAtLeast(xs: seq<real>, lo: real)
    requires forall k | 0 <= k < |xs| :: lo <= xs[k]
    ensures (|xs| as real) * lo <= Sum(xs)
  {
    if xs != [] {
      SumAtLeast(xs[..|xs| - 1], lo);
    }
  }

  lemma {:induction false} SumAtMost(xs: seq<real>, hi: real)
    requires forall k | 0 <= k < |xs| :: xs[k] <= hi
    ensures Sum(xs) <= (|xs| as real) * hi
  {
    if xs != [] {
      SumAtMost(xs[..|xs| - 1], hi);
    }
  }

  /** The values of a window, or None when one of its entries is NaN. */
  function Values(xs: seq<Option<real>>): (r: Option<seq<real>>)
    ensures r.Some? <==> forall k | 0 <= k < |xs| :: xs[k].Some?
    ensures r.Some? ==> |r.value| == |xs| && forall k | 0 <= k < |xs| :: r.value[k] == xs[k].value
  {
    if xs == [] then Some([])
    else
      match Values(xs[..|xs| - 1])
      case None => None
      case Some(vs) => if xs[|xs| - 1].Some? then Some(vs + [xs[|xs| - 1].value]) else None
  }

  /** `rolling(window=w).mean()` at index i: the mean of the w entries ending at i. */
  function RollingMean(xs: seq<Option<real>>, w: nat, i: nat): (r: Option<real>)
    requires 1 <= w && i < |xs|
    ensures r.Some? <==> w <= i + 1 && forall k | i + 1 - w <= k <= i :: xs[k].Some?
  {
    if i + 1 < w then None
    else
      var window := xs[i + 1 - w..i + 1];
      assert forall k | i + 1 - w <= k <= i :: xs[k] == window[k - (i + 1 - w)];
      match Values(window)
      case None => None
      case Some(vs) => Some(Sum(vs) / (w as real))
  }

  /** The values of a fully defined window, entry by entry. */
  lemma WindowValues(xs: seq<Option<real>>, w: nat, i: nat)
    requires 1 <= w <= i + 1 < |xs| + 1
    requires Values(xs[i + 1 - w..i + 1]).Some?
    ensures |Values(xs[i + 1 - w..i + 1]).value| == w
    ensures forall k | i + 1 - w <= k <= i :: xs[k].Some?
              && Values(xs[i + 1 - w..i + 1]).value[k - (i + 1 - w)] == xs[k].value
  {
    var window := xs[i + 1 - w..i + 1];
    assert forall k | i + 1 - w <= k <= i :: window[k - (i + 1 - w)] == xs[k];
  }

  /** A rolling mean is no lower than a lower bound of its defined entries. */
  lemma MeanAtLeast(xs: seq<Option<real>>, w: nat, i: nat, lo: real)
    requires 1 <= w && i < |xs|
    requires forall k | 0 <= k < |xs| && xs[k].Some? :: lo <= xs[k].value
    ensures RollingMean(xs, w, i).Some? ==> lo <= RollingMean(xs, w, i).value
  {
    if RollingMean(xs, w, i).Some? {
      var vs := Values(xs[i + 1 - w..i + 1]).value;
      WindowValues(xs, w, i);
      SumAtLeast(vs, lo);
      LowerBoundOfMean(Sum(vs), w as real, lo);
    }
  }

  /** A rolling mean is no higher than an upper bound of its defined entries. */
  lemma MeanAtMost(xs: seq<Option<real>>, w: nat, i: nat, hi: real)
    requires 1 <= w && i < |xs|
    requires forall k | 0 <= k < |xs| && xs[k].Some? :: xs[k].value <= hi
    ensures RollingMean(xs, w, i).Some? ==> RollingMean(xs, w, i).value <= hi
  {
    if RollingMean(xs, w, i).Some? {
      var vs := Values(xs[i + 1 - w..i + 1]).value;
      WindowValues(xs, w, i);
      SumAtMost(vs, hi);
      UpperBoundOfMean(Sum(vs), w as real, hi);
    }
  }

  /** A rolling mean depends only on the w entries of its window. */
  lemma RollingMeanLocal(xs: seq<Option<real>>, ys: seq<Option<real>>, w: nat, i: nat, j: nat)
    requires 1 <= w && i < |xs| && j < |ys|
    requires w <= i + 1 && w <= j + 1
    requires xs[i + 1 - w..i + 1] == ys[j + 1 - w..j + 1]
    ensures RollingMean(xs, w, i) == RollingMean(ys, w, j)
  {
  }

  /** Upward move into bar i; the first bar's difference is NaN, which `where(delta > 0, 0)` turns into 0. */
  function Gain(prices: seq<real>, i: nat): (g: real)
    requires i < |prices|
    ensures g >= 0.0
    ensures g > 0.0 ==> i > 0 && g == prices[i] - prices[i - 1]
  {
    if i == 0 then 0.0
    else
      var delta := prices[i] - prices[i - 1];
      if delta > 0.0 then delta else 0.0
  }

  /** Size of the downward move into bar i; 0 for the first bar, as for gains. */
  function Loss(prices: seq<real>, i: nat): (l: real)
    requires i < |prices|
    ensures l >= 0.0
    ensures l > 0.0 ==> i > 0 && l == prices[i - 1] - prices[i]
  {
    if i == 0 then 0.0
    else
      var delta := prices[i] - prices[i - 1];
      if delta < 0.0 then -delta else 0.0
  }

  /** Every move is split exactly into a gain and a loss, at most one of them non-zero. */
  lemma GainLossSplit(prices: seq<real>, i: nat)
    requires 0 < i < |prices|
    ensures Gain(prices, i) - Loss(prices, i) == prices[i] - prices[i - 1]
    ensures Gain(prices, i) == 0.0 || Loss(prices, i) == 0.0
  {
  }

  /** The gain series; it holds no NaN. */
  function Gains(prices: seq<real>): (r: seq<Option<real>>)
    ensures |r| == |prices|
    ensures forall k | 0 <= k < |prices| :: r[k] == Some(Gain(prices, k))
  {
    seq(|prices|, k requires 0 <= k < |prices| => Some(Gain(prices, k)))
  }

  /** The loss series; it holds no NaN. */
  function Losses(prices: seq<real>): (r: seq<Option<real>>)
    ensures |r| == |prices|
    ensures forall k | 0 <= k < |prices| :: r[k] == Some(Loss(prices, k))
  {
    seq(|prices|, k requires 0 <= k < |prices| => Some(Loss(prices, k)))
  }

  /**
   * `100 - 100 / (1 + avgGain / avgLoss)`. With no average loss the ratio is
   * +inf for a positive average gain (RSI 100) and NaN when both are 0.
   * Equivalently, the RSI is the gains' share of all movement, in percent.
   */
  function RsiValue(avgGain: real, avgLoss: real): (r: Option<real>)
    requires avgGain >= 0.0 && avgLoss >= 0.0
    ensures r == if avgGain + avgLoss == 0.0 then None else Some(100.0 * avgGain / (avgGain + avgLoss))
  {
    if avgLoss == 0.0 then
      if avgGain > 0.0 then
        DivMul(100.0 * avgGain, avgGain);
        Cancel(100.0 * avgGain / avgGain, 100.0, avgGain);
        Some(100.0)
      else None
    else
      var rs := avgGain / avgLoss;
      RsiRatioForm(avgGain, avgLoss);
      Some(100.0 - 100.0 / (1.0 + rs))
  }

  /** `100 - 100 / (1 + g / l)` is `100 * g / (g + l)` for a positive l. */
  lemma RsiRatioForm(g: real, l: real)
    requires g >= 0.0 && l > 0.0
    ensures 100.0 - 100.0 / (1.0 + g / l) == 100.0 * g / (g + l)
  {
    var t := g + l;
    DivMul(g, l);
    var d := 1.0 + g / l;
    assert d * l == t;
    var q := 100.0 / d;
    DivMul(100.0, d);
    assert q * t == (q * d) * l;
    DivMul(100.0 * g, t);
    assert (100.0 - q) * t == 100.0 * g;
    Cancel(100.0 - q, 100.0 * g / t, t);
  }

  /** A defined RSI lies in [0, 100]; it is 100 exactly when there is no loss. */
  lemma RsiValueBounds(avgGain: real, avgLoss: real)
    requires avgGain >= 0.0 && avgLoss >= 0.0
    ensures avgLoss == 0.0 && avgGain > 0.0 ==> RsiValue(avgGain, avgLoss) == Some(100.0)
    ensures avgLoss == 0.0 && avgGain == 0.0 ==> RsiValue(avgGain, avgLoss) == None
    ensures RsiValue(avgGain, avgLoss).Some? ==> 0.0 <= RsiValue(avgGain, avgLoss).value <= 100.0
    ensures RsiValue(avgGain, avgLoss).Some? ==> (RsiValue(avgGain, avgLoss).value == 100.0 <==> avgLoss == 0.0)
  {
    if avgGain + avgLoss != 0.0 {
      var t := avgGain + avgLoss;
      var v := 100.0 * avgGain / t;
      assert v * t == 100.0 * avgGain;
      assert 0.0 <= v;
      assert v <= 100.0;
    }
  }

  /** The RSI at bar i, from the rolling means of gains and losses. */
  function RsiAt(prices: seq<real>, w: nat, i: nat): (r: Option<real>)
    requires 1 <= w && i < |prices|
    ensures r.Some? ==> w <= i + 1 && 0.0 <= r.value <= 100.0
  {
    var avgGain := RollingMean(Gains(prices), w, i);
    var avgLoss := RollingMean(Losses(prices), w, i);
    if avgGain.None? || avgLoss.None? then None
    else
      MeanAtLeast(Gains(prices), w, i, 0.0);
      MeanAtLeast(Losses(prices), w, i, 0.0);
      RsiValueBounds(avgGain.value, avgLoss.value);
      RsiValue(avgGain.value, avgLoss.value)
  }

  /** `Backtester.calculate_rsi(prices, window)`: one RSI entry per price. */
  function CalculateRsi(prices: seq<real>, w: nat): (rsi: seq<Option<real>>)
    requires 1 <= w
    ensures |rsi| == |prices|
    ensures forall i | 0 <= i < |prices| && i + 1 < w :: rsi[i].None?
    ensures forall i | 0 <= i < |prices| && rsi[i].Some? :: 0.0 <= rsi[i].value <= 100.0
  {
    seq(|prices|, i requires 0 <= i < |prices| => RsiAt(prices, w, i))
  }

  /** `rsi.rolling(window=w).mean()`: the moving average of the RSI. */
  function RsiMovingAverage(rsi: seq<Option<real>>, w: nat): (ma: seq<Option<real>>)
    requires 1 <= w
    ensures |ma| == |rsi|
    ensures forall i | 0 <= i < |rsi| :: ma[i].Some? <==> w <= i + 1 && forall k | i + 1 - w <= k <= i :: rsi[k].Some?
  {
    seq(|rsi|, i requires 0 <= i < |rsi| => RollingMean(rsi, w, i))
  }

  /** The moving average of values in [0, 100] lies in [0, 100]. */
  lemma MovingAverageBounds(rsi: seq<Option<real>>, w: nat)
    requires 1 <= w
    requires forall k | 0 <= k < |rsi| && rsi[k].Some? :: 0.0 <= rsi[k].value <= 100.0
    ensures forall i | 0 <= i < |rsi| && RsiMovingAverage(rsi, w)[i].Some? ::
              0.0 <= RsiMovingAverage(rsi, w)[i].value <= 100.0
  {
    forall i | 0 <= i < |rsi|
      ensures RollingMean(rsi, w, i).Some? ==> 0.0 <= RollingMean(rsi, w, i).value <= 100.0
    {
      MeanAtLeast(rsi, w, i, 0.0);
      MeanAtMost(rsi, w, i, 100.0);
    }
  }

  /** Gains and losses of a prefix of the prices are the prefix of the gains and losses. */
  lemma MovesOfPrefix(prices: seq<real>, n: nat)
    requires n <= |prices|
    ensures Gains(prices[..n]) == Gains(prices)[..n]
    ensures Losses(prices[..n]) == Losses(prices)[..n]
  {
  }

  /** The w gains and losses ending at bar i are those of the w + 1 prices ending there. */
  lemma MovesOfWindow(p: seq<real>, q: seq<real>, w: nat, i: nat, j: nat)
    requires w <= i < |p| && w <= j < |q|
    requires p[i - w..i + 1] == q[j - w..j + 1]
    ensures Gains(p)[i + 1 - w..i + 1] == Gains(q)[j + 1 - w..j + 1]
    ensures Losses(p)[i + 1 - w..i + 1] == Losses(q)[j + 1 - w..j + 1]
  {
    var gp, gq := Gains(p)[i + 1 - w..i + 1], Gains(q)[j + 1 - w..j + 1];
    var lp, lq := Losses(p)[i + 1 - w..i + 1], Losses(q)[j + 1 - w..j + 1];
    forall t | 0 <= t < w
      ensures gp[t] == gq[t] && lp[t] == lq[t]
    {
      assert p[i + 1 - w + t] == p[i - w..i + 1][t + 1] == q[j - w..j + 1][t + 1] == q[j + 1 - w + t];
      assert p[i - w + t] == p[i - w..i + 1][t] == q[j - w..j + 1][t] == q[j - w + t];
    }
  }

  /** No look-ahead: the RSI of a truncated price series is the truncated RSI series. */
  lemma RsiOfPrefix(prices: seq<real>, w: nat, n: nat)
    requires 1 <= w && n <= |prices|
    ensures CalculateRsi(prices[..n], w) == CalculateRsi(prices, w)[..n]
  {
    MovesOfPrefix(prices, n);
    forall i | 0 <= i < n
      ensures RsiAt(prices[..n], w, i) == RsiAt(prices, w, i)
    {
      if w <= i + 1 {
        RollingMeanLocal(Gains(prices[..n]), Gains(prices), w, i, i);
        RollingMeanLocal(Losses(prices[..n]), Losses(prices), w, i, i);
      }
    }
  }

  /** The RSI at bar i (past the first window) depends only on the prices of bars i - w to i. */
  lemma RsiOfWindow(p: seq<real>, q: seq<real>, w: nat, i: nat, j: nat)
    requires 1 <= w <= i < |p| && w <= j < |q|
    requires p[i - w..i + 1] == q[j - w..j + 1]
    ensures CalculateRsi(p, w)[i] == CalculateRsi(q, w)[j]
  {
    MovesOfWindow(p, q, w, i, j);
    RollingMeanLocal(Gains(p), Gains(q), w, i, j);
    RollingMeanLocal(Losses(p), Losses(q), w, i, j);
  }

  /** No look-ahead: the moving average of a truncated RSI series is the truncated average. */
  lemma MovingAverageOfPrefix(rsi: seq<Option<real>>, w: nat, n: nat)
    requires 1 <= w && n <= |rsi|
    ensures RsiMovingAverage(rsi[..n], w) == RsiMovingAverage(rsi, w)[..n]
  {
    forall i | 0 <= i < n
      ensures RollingMean(rsi[..n], w, i) == RollingMean(rsi, w, i)
    {
      if w <= i + 1 {
        RollingMeanLocal(rsi[..n], rsi, w, i, i);
      }
    }
  }

  /** The moving average at bar i depends only on the RSI of bars i - w + 1 to i. */
  lemma MovingAverageOfWindow(r1: seq<Option<real>>, r2: seq<Option<real>>, w: nat, i: nat, j: nat)
    requires 1 <= w && w <= i + 1 && i < |r1| && w <= j + 1 && j < |r2|
    requires r1[i + 1 - w..i + 1] == r2[j + 1 - w..j + 1]
    ensures RsiMovingAverage(r1, w)[i] == RsiMovingAverage(r2, w)[j]
  {
    RollingMeanLocal(r1, r2, w, i, j);
  }

  /** A flat price series has no defined RSI: there is neither gain nor loss. */
  lemma {:induction false} ConstantPricesHaveNoRsi(prices: seq<real>, w: nat)
    requires 1 <= w
    requires forall k | 0 <= k < |prices| :: prices[k] == prices[0]
    ensures forall i | 0 <= i < |prices| :: CalculateRsi(prices, w)[i].None?
  {
    forall i | 0 <= i < |prices|
      ensures RsiAt(prices, w, i).None?
    {
      var gains, losses := Gains(prices), Losses(prices);
      MeanAtLeast(gains, w, i, 0.0);
      MeanAtMost(gains, w, i, 0.0);
      MeanAtLeast(losses, w, i, 0.0);
      MeanAtMost(losses, w, i, 0.0);
    }
  }

  /** With no falling bar, every defined RSI is 100. */
  lemma {:induction false} RisingPricesRsiIsHundred(prices: seq<real>, w: nat)
    requires 1 <= w
    requires forall a, b | 0 <= a < b < |prices| :: prices[a] <= prices[b]
    ensures forall i | 0 <= i < |prices| && CalculateRsi(prices, w)[i].Some? :: CalculateRsi(prices, w)[i].value == 100.0
  {
    forall i | 0 <= i < |prices| && RsiAt(prices, w, i).Some?
      ensures RsiAt(prices, w, i).value == 100.0
    {
      var losses := Losses(prices);
      assert forall k | 0 < k < |prices| :: prices[k - 1] <= prices[k];
      MeanAtLeast(losses, w, i, 0.0);
      MeanAtMost(losses, w, i, 0.0);
      var avgGain := RollingMean(Gains(prices), w, i).value;
      MeanAtLeast(Gains(prices), w, i, 0.0);
      RsiValueBounds(avgGain, 0.0);
    }
  }

  /** The moving average of a series whose defined entries all equal c is c wherever defined. */
  lemma MovingAverageOfConstant(rsi: seq<Option<real>>, w: nat, c: real)
    requires 1 <= w
    requires forall k | 0 <= k < |rsi| && rsi[k].Some? :: rsi[k].value == c
    ensures forall i | 0 <= i < |rsi| && RsiMovingAverage(rsi, w)[i].Some? :: RsiMovingAverage(rsi, w)[i].value == c
  {
    forall i | 0 <= i < |rsi|
      ensures RollingMean(rsi, w, i).Some? ==> RollingMean(rsi, w, i).value == c
    {
      MeanAtLeast(rsi, w, i, c);
      MeanAtMost(rsi, w, i, c);
    }
  }

  /** A sum of non-negative terms is positive iff one of the terms is. */
  lemma {:induction false} SumPositive(xs: seq<real>)
    requires forall k | 0 <= k < |xs| :: 0.0 <= xs[k]
    ensures Sum(xs) > 0.0 <==> exists k | 0 <= k < |xs| :: xs[k] > 0.0
  {
    if xs != [] {
      var init := xs[..|xs| - 1];
      SumPositive(init);
      SumAtLeast(init, 0.0);
      if Sum(xs) > 0.0 {
        if Sum(init) > 0.0 {
          var k :| 0 <= k < |init| && init[k] > 0.0;
          assert xs[k] > 0.0;
        } else {
          assert xs[|xs| - 1] > 0.0;
        }
      } else {
        forall k | 0 <= k < |xs|
          ensures xs[k] <= 0.0
        {
          if k < |init| {
            assert init[k] == xs[k];
          }
        }
      }
    }
  }

  /** A full window of non-negative entries has a positive mean iff one of its entries is positive. */
  lemma RollingMeanPositive(xs: seq<Option<real>>, w: nat, i: nat)
    requires 1 <= w <= i + 1 <= |xs|
    requires forall k | 0 <= k < |xs| :: xs[k].Some? && 0.0 <= xs[k].value
    ensures RollingMean(xs, w, i).Some?
    ensures RollingMean(xs, w, i).value > 0.0 <==> exists k | i + 1 - w <= k <= i :: xs[k].value > 0.0
  {
    var start := i + 1 - w;
    var vs := Values(xs[start..i + 1]).value;
    WindowValues(xs, w, i);
    SumPositive(vs);
    if Sum(vs) > 0.0 {
      var t :| 0 <= t < |vs| && vs[t] > 0.0;
      assert xs[start + t].value > 0.0;
    }
    if exists k | start <= k <= i :: xs[k].value > 0.0 {
      var k :| start <= k <= i && xs[k].value > 0.0;
      assert vs[k - start] > 0.0;
    }
    PositiveQuotient(Sum(vs), w as real);
  }

  /** Bar k carries a gain or a loss exactly when its close differs from the previous one. */
  lemma MoveIff(prices: seq<real>, k: nat)
    requires k < |prices|
    ensures Gain(prices, k) > 0.0 || Loss(prices, k) > 0.0 <==> 0 < k && prices[k] != prices[k - 1]
  {
  }

  /**
   * Past the warm-up the RSI is undefined only when no close in its window
   * moved: the window of bar `w - 1` is already complete, since the first
   * move counts as 0 and not as NaN.
   */
  lemma RsiDefinedIff(prices: seq<real>, w: nat, i: nat)
    requires 1 <= w <= i + 1 <= |prices|
    ensures CalculateRsi(prices, w)[i].Some? <==>
              exists k | i + 1 - w <= k <= i && 0 < k :: prices[k] != prices[k - 1]
  {
    GainsMeanPositive(prices, w, i);
    LossesMeanPositive(prices, w, i);
    WindowMoves(prices, w, i);
    MeanAtLeast(Gains(prices), w, i, 0.0);
    MeanAtLeast(Losses(prices), w, i, 0.0);
  }

  /** A window holds a gain or a loss exactly when some close in it differs from the one before. */
  lemma WindowMoves(prices: seq<real>, w: nat, i: nat)
    requires 1 <= w <= i + 1 <= |prices|
    ensures (exists k | i + 1 - w <= k <= i :: Gain(prices, k) > 0.0) ||
            (exists k | i + 1 - w <= k <= i :: Loss(prices, k) > 0.0)
            <==> exists k | i + 1 - w <= k <= i && 0 < k :: prices[k] != prices[k - 1]
  {
    if exists k | i + 1 - w <= k <= i && 0 < k :: prices[k] != prices[k - 1] {
      var k :| i + 1 - w <= k <= i && 0 < k && prices[k] != prices[k - 1];
      MoveIff(prices, k);
    }
  }

  /** The average gain over a complete window is positive exactly when some bar in it gained. */
  lemma GainsMeanPositive(prices: seq<real>, w: nat, i: nat)
    requires 1 <= w <= i + 1 <= |prices|
    ensures RollingMean(Gains(prices), w, i).Some?
    ensures RollingMean(Gains(prices), w, i).value > 0.0 <==> exists k | i + 1 - w <= k <= i :: Gain(prices, k) > 0.0
  {
    var gains := Gains(prices);
    RollingMeanPositive(gains, w, i);
    if exists k | i + 1 - w <= k <= i :: gains[k].value > 0.0 {
      var k :| i + 1 - w <= k <= i && gains[k].value > 0.0;
      assert Gain(prices, k) > 0.0;
    }
  }

  /** The average loss over a complete window is positive exactly when some bar in it lost. */
  lemma LossesMeanPositive(prices: seq<real>, w: nat, i: nat)
    requires 1 <= w <= i + 1 <= |prices|
    ensures RollingMean(Losses(prices), w, i).Some?
    ensures RollingMean(Losses(prices), w, i).value > 0.0 <==> exists k | i + 1 - w <= k <= i :: Loss(prices, k) > 0.0
  {
    var losses := Losses(prices);
    RollingMeanPositive(losses, w, i);
    if exists k | i + 1 - w <= k <= i :: losses[k].value > 0.0 {
      var k :| i + 1 - w <= k <= i && losses[k].value > 0.0;
      assert Loss(prices, k) > 0.0;
    }
  }

  /** A single rise fills the two-bar window with gains only: RSI 100. */
  lemma RiseExample()
    ensures CalculateRsi([1.0, 2.0], 2)[1] == Some(100.0)
  {
    var up := [1.0, 2.0];
    assert Gain(up, 0) == 0.0 && Gain(up, 1) == 1.0 && Loss(up, 0) == 0.0 && Loss(up, 1) == 0.0;
    TwoBarRsi(up, 1, 0.5, 0.0);
    RsiValueExamples();
  }

  /** A single fall fills it with losses only: RSI 0. */
  lemma FallExample()
    ensures CalculateRsi([2.0, 1.0], 2)[1] == Some(0.0)
  {
    var down := [2.0, 1.0];
    assert Gain(down, 0) == 0.0 && Gain(down, 1) == 0.0 && Loss(down, 0) == 0.0 && Loss(down, 1) == 1.0;
    TwoBarRsi(down, 1, 0.0, 0.5);
    RsiValueExamples();
  }

  /** A rise of 1 then a fall of 0.5: average gain 0.5, average loss 0.25, RSI 200/3. */
  lemma MixedExample()
    ensures CalculateRsi([1.0, 2.0, 1.5], 2)[2] == Some(200.0 / 3.0)
  {
    var mixed := [1.0, 2.0, 1.5];
    assert mixed[1] - mixed[0] == 1.0 && mixed[2] - mixed[1] == -0.5;
    assert Gain(mixed, 1) == 1.0 && Gain(mixed, 2) == 0.0 && Loss(mixed, 1) == 0.0 && Loss(mixed, 2) == 0.5;
    TwoBarRsi(mixed, 2, 0.5, 0.25);
    RsiValueExamples();
  }

  /** The three RSI values behind the examples above. */
  lemma RsiValueExamples()
    ensures RsiValue(0.5, 0.0) == Some(100.0)
    ensures RsiValue(0.0, 0.5) == Some(0.0)
    ensures RsiValue(0.5, 0.25) == Some(200.0 / 3.0)
  {
  }

  /** With a two-bar window the RSI at bar i comes from the moves into bars i - 1 and i. */
  lemma TwoBarRsi(prices: seq<real>, i: nat, avgGain: real, avgLoss: real)
    requires 1 <= i < |prices|
    requires avgGain == (Gain(prices, i - 1) + Gain(prices, i)) / 2.0
    requires avgLoss == (Loss(prices, i - 1) + Loss(prices, i)) / 2.0
    ensures CalculateRsi(prices, 2)[i] == RsiValue(avgGain, avgLoss)
  {
    assert Gains(prices)[i - 1..i + 1] == [Some(Gain(prices, i - 1)), Some(Gain(prices, i))];
    assert Losses(prices)[i - 1..i + 1] == [Some(Loss(prices, i - 1)), Some(Loss(prices, i))];
    WindowMean(Gains(prices), i, Gain(prices, i - 1), Gain(prices, i));
    WindowMean(Losses(prices), i, Loss(prices, i - 1), Loss(prices, i));
  }

  /** The two-bar rolling mean ending at i of two given values. */
  lemma WindowMean(xs: seq<Option<real>>, i: nat, a: real, b: real)
    requires 1 <= i < |xs| && xs[i - 1..i + 1] == [Some(a), Some(b)]
    ensures RollingMean(xs, 2, i) == Some((a + b) / 2.0)
  {
    var window := xs[i + 1 - 2..i + 1];
    assert window == [Some(a), Some(b)];
    var v := Values(window);
    assert v.Some? && v.value[0] == a && v.value[1] == b;
    assert v.value == [a, b];
    assert Sum([a, b]) == a + b by {
      assert [a][..0] == [];
      assert Sum([a]) == Sum([]) + a;
      assert [a, b][..1] == [a];
      assert Sum([a, b]) == Sum([a]) + b;
    }
    assert RollingMean(xs, 2, i) == Some(Sum(v.value) / 2.0);
  }
}
