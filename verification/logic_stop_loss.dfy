/**
 * The stateless stop-loss rule of backend/backtesting/logic_stop_loss.py:
 * whether the caller holds a position, and at what price it bought, are
 * arguments, not hidden state.
 */
module LogicStopLoss {
  import Logic

  /** A position is sold once the close falls below 99% of the purchase price. */
  const StopLossFactor: real := 0.99

  /** Buy on the crossover condition, and only when not already invested. */
  function CheckForBuy(rsiNow: real, rsiMa: real, currentPrice: real, prevPrice: real, isInvested: bool): (r: bool)
    ensures r <==> rsiNow > rsiMa && currentPrice > prevPrice && !isInvested
  {
    var deltaPrice := currentPrice - prevPrice;
    if rsiNow > rsiMa && deltaPrice > 0.0 && !isInvested then true else false
  }

  /** Sell an open position on the stop-loss or on the RSI trend break. */
  function CheckForSell(rsiNow: real, rsiMa: real, currentPrice: real, purchasePrice: real, isInvested: bool): (r: bool)
    ensures !isInvested ==> !r
    ensures isInvested ==> (r <==> currentPrice < purchasePrice * StopLossFactor || rsiNow < rsiMa)
  {
    if !isInvested then false
    else
      var stopLossPrice := purchasePrice * StopLossFactor;
      var takeProfitCondition := rsiNow < rsiMa;
      if currentPrice < stopLossPrice || takeProfitCondition then true else false
  }

  /** No buy signal while a position is open. */
  lemma NoBuyWhileInvested(rsiNow: real, rsiMa: real, currentPrice: real, prevPrice: real)
    ensures !CheckForBuy(rsiNow, rsiMa, currentPrice, prevPrice, true)
  {
  }

  /** The buy condition is the crossover rule's, gated by the position flag. */
  lemma BuyIsGatedCrossover(rsiPrev: real, rsiNow: real, rsiMa: real, currentPrice: real, prevPrice: real, isInvested: bool)
    ensures CheckForBuy(rsiNow, rsiMa, currentPrice, prevPrice, isInvested)
            == (!isInvested && Logic.Buy(rsiPrev, rsiNow, rsiMa, currentPrice, prevPrice))
  {
  }

  /** No sell signal without a position, whatever the prices. */
  lemma NoSellWhileFlat(rsiNow: real, rsiMa: real, currentPrice: real, purchasePrice: real)
    ensures !CheckForSell(rsiNow, rsiMa, currentPrice, purchasePrice, false)
  {
  }

  /** A close strictly below 99% of the purchase price forces a sell. */
  lemma StopLossForcesSell(rsiNow: real, rsiMa: real, currentPrice: real, purchasePrice: real)
    requires currentPrice < purchasePrice * 0.99
    ensures CheckForSell(rsiNow, rsiMa, currentPrice, purchasePrice, true)
  {
  }

  /** An RSI below its moving average forces a sell, whatever the price. */
  lemma TrendBreakForcesSell(rsiNow: real, rsiMa: real, currentPrice: real, purchasePrice: real)
    requires rsiNow < rsiMa
    ensures CheckForSell(rsiNow, rsiMa, currentPrice, purchasePrice, true)
  {
  }

  /** An open position is held exactly when neither sell trigger holds. */
  lemma HoldIff(rsiNow: real, rsiMa: real, currentPrice: real, purchasePrice: real)
    ensures !CheckForSell(rsiNow, rsiMa, currentPrice, purchasePrice, true)
            <==> currentPrice >= 0.99 * purchasePrice && rsiNow >= rsiMa
  {
  }

  /** For one position flag, buy and sell never both fire. */
  lemma BuyAndSellExclusive(rsiNow: real, rsiMa: real, currentPrice: real, prevPrice: real, purchasePrice: real, isInvested: bool)
    ensures !(CheckForBuy(rsiNow, rsiMa, currentPrice, prevPrice, isInvested)
              && CheckForSell(rsiNow, rsiMa, currentPrice, purchasePrice, isInvested))
  {
  }

  /** Bought at 100, a close of 98.9 (1.1% lower) triggers the stop-loss, with the RSI still strong. */
  lemma StopLossExample(rsiNow: real, rsiMa: real)
    requires rsiNow >= rsiMa
    ensures 98.9 < 100.0 * StopLossFactor
    ensures CheckForSell(rsiNow, rsiMa, 98.9, 100.0, true)
  {
  }
}
