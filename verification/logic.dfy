/**
 * The crossover decision rule of backend/backtesting/logic.py (version 1).
 * Both rules take the previous RSI as their first argument, compute its
 * change, and never use it.
 */
module Logic {

  /** Buy when the RSI is above its moving average and the bar closed higher. */
  function Buy(rsiPrev: real, rsiNow: real, rsiMa: real, currentPrice: real, prevPrice: real): (r: bool)
    ensures r <==> rsiNow > rsiMa && currentPrice > prevPrice
  {
    var deltaPrice := currentPrice - prevPrice;
    if rsiNow > rsiMa && deltaPrice > 0.0 then true else false
  }

  /** Sell when the RSI is below its moving average and the bar closed lower. */
  function Sell(rsiPrev: real, rsiNow: real, rsiMa: real, currentPrice: real, prevPrice: real): (r: bool)
    ensures r <==> rsiNow < rsiMa && currentPrice < prevPrice
  {
    var deltaPrice := currentPrice - prevPrice;
    if rsiNow < rsiMa && deltaPrice < 0.0 then true else false
  }

  /** The two signals never fire together. */
  lemma BuyAndSellExclusive(rsiPrev: real, rsiNow: real, rsiMa: real, currentPrice: real, prevPrice: real)
    ensures !(Buy(rsiPrev, rsiNow, rsiMa, currentPrice, prevPrice) && Sell(rsiPrev, rsiNow, rsiMa, currentPrice, prevPrice))
  {
  }

  /** The previous RSI has no influence on either signal. */
  lemma SignalsIgnoreRsiPrev(rsiPrev1: real, rsiPrev2: real, rsiNow: real, rsiMa: real, currentPrice: real, prevPrice: real)
    ensures Buy(rsiPrev1, rsiNow, rsiMa, currentPrice, prevPrice) == Buy(rsiPrev2, rsiNow, rsiMa, currentPrice, prevPrice)
    ensures Sell(rsiPrev1, rsiNow, rsiMa, currentPrice, prevPrice) == Sell(rsiPrev2, rsiNow, rsiMa, currentPrice, prevPrice)
  {
  }

  /** An unchanged close gives no signal: both price comparisons are strict. */
  lemma NoSignalOnUnchangedPrice(rsiPrev: real, rsiNow: real, rsiMa: real, price: real)
    ensures !Buy(rsiPrev, rsiNow, rsiMa, price, price) && !Sell(rsiPrev, rsiNow, rsiMa, price, price)
  {
  }

  /** An RSI sitting exactly on its moving average gives no signal. */
  lemma NoSignalAtAverage(rsiPrev: real, rsi: real, currentPrice: real, prevPrice: real)
    ensures !Buy(rsiPrev, rsi, rsi, currentPrice, prevPrice) && !Sell(rsiPrev, rsi, rsi, currentPrice, prevPrice)
  {
  }
}
