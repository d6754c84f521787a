/** Costs, sizing and settlement of the factory backtest (backtesting/cost_model.py, strategy/risk.py). */
module CostModel {
  import opened Common

  datatype Costs = Costs(takerFeeBps: real, slippageBps: real)

  datatype Leg = EntryLeg | ExitLeg

  datatype Settlement = Settlement(gross: real, net: real, fees: real, slippageCost: real,
                                   r: real, feeR: real, slippageR: real)

  /** A taker buys above and sells below the mid. */
  function FillPrice(c: Costs, mid: real, side: Direction, leg: Leg): real {
    var adverseUp := (side == LONG && leg == EntryLeg) || (side == SHORT && leg == ExitLeg);
    mid * (if adverseUp then 1.0 + c.slippageBps / 10000.0 else 1.0 - c.slippageBps / 10000.0)
  }

  function Fee(c: Costs, price: real, qty: real): real {
    Abs(price * qty) * c.takerFeeBps / 10000.0
  }

  function StopPrice(entry: real, atr: real, side: Direction, stopAtr: real): real {
    if side == LONG then entry - stopAtr * atr else entry + stopAtr * atr
  }

  function TargetPrice(entry: real, atr: real, side: Direction, targetAtr: real): real {
    if side == LONG then entry + targetAtr * atr else entry - targetAtr * atr
  }

  /** Quantity and risk amount from fractional-risk sizing. */
  function SizePosition(equity: real, riskPct: real, entry: real, stop: real): (real, real) {
    var riskAmount, perUnit := equity * riskPct, Abs(entry - stop);
    (if perUnit <= 0.0 then 0.0 else riskAmount / perUnit, riskAmount)
  }

  function OverRisk(x: real, riskAmount: real): real {
    if riskAmount != 0.0 then x / riskAmount else 0.0
  }

  /** Gross on the mids less gross on the fills. */
  function SlippageCost(side: Direction, entry: real, exit: real, qty: real, c: Costs): real {
    SignedMove(side, entry, exit) * qty -
    SignedMove(side, FillPrice(c, entry, side, EntryLeg), FillPrice(c, exit, side, ExitLeg)) * qty
  }

  function SettleTrade(side: Direction, entry: real, exit: real, qty: real, riskAmount: real, c: Costs): Settlement {
    var entryFill, exitFill := FillPrice(c, entry, side, EntryLeg), FillPrice(c, exit, side, ExitLeg);
    var gross := SignedMove(side, entry, exit) * qty;
    var onFills := SignedMove(side, entryFill, exitFill) * qty;
    var fees := Fee(c, entryFill, qty) + Fee(c, exitFill, qty);
    var net := onFills - fees;
    var slippage := SlippageCost(side, entry, exit, qty, c);
    Settlement(gross, net, fees, slippage, OverRisk(net, riskAmount), OverRisk(fees, riskAmount), OverRisk(slippage, riskAmount))
  }

  /** Slippage drag is the slippage rate on the traded notional of both legs, whichever the side. */
  lemma SlippageIsRateOnBothLegs(side: Direction, entry: real, exit: real, qty: real, c: Costs)
    ensures SlippageCost(side, entry, exit, qty, c) == c.slippageBps / 10000.0 * ((entry + exit) * qty)
  {
  }

  lemma RsAddUp(net: real, fees: real, slippage: real, gross: real, riskAmount: real)
    requires net + fees + slippage == gross
    ensures OverRisk(net, riskAmount) + OverRisk(fees, riskAmount) + OverRisk(slippage, riskAmount) == OverRisk(gross, riskAmount)
  {
  }

  /** What is taken out of a trade in fees and slippage is exactly what separates net R from gross R. */
  lemma NetPlusCostsIsGross(side: Direction, entry: real, exit: real, qty: real, riskAmount: real, c: Costs)
    ensures var t := SettleTrade(side, entry, exit, qty, riskAmount, c);
            && t.net + t.fees + t.slippageCost == t.gross == SignedMove(side, entry, exit) * qty
            && t.r + t.feeR + t.slippageR == OverRisk(t.gross, riskAmount)
  {
    var t := SettleTrade(side, entry, exit, qty, riskAmount, c);
    RsAddUp(t.net, t.fees, t.slippageCost, t.gross, riskAmount);
  }

  /** The stop lies below the entry and the target above it, in the trade's direction, by their multiples of the ATR. */
  lemma LevelsBracketEntry(entry: real, atr: real, side: Direction, stopAtr: real, targetAtr: real)
    ensures SignedMove(side, entry, StopPrice(entry, atr, side, stopAtr)) == -(stopAtr * atr)
    ensures SignedMove(side, entry, TargetPrice(entry, atr, side, targetAtr)) == targetAtr * atr
  {
  }

  /** Fixed-fractional sizing: whatever the ATR, being stopped out from the entry fill loses exactly the
      risk amount, equity x risk fraction, before fees and exit slippage. */
  lemma StopLosesTheRiskAmount(equity: real, riskPct: real, entry: real, atr: real, side: Direction, stopAtr: real)
    requires stopAtr * atr > 0.0
    ensures var stop := StopPrice(entry, atr, side, stopAtr);
            var (qty, riskAmount) := SizePosition(equity, riskPct, entry, stop);
            riskAmount == equity * riskPct && SignedMove(side, entry, stop) * qty == -riskAmount
  {
    var stop := StopPrice(entry, atr, side, stopAtr);
    var perUnit := Abs(entry - stop);
    LevelsBracketEntry(entry, atr, side, stopAtr, 0.0);
    assert perUnit == stopAtr * atr;
    DivideBack(equity * riskPct, perUnit);
  }

  lemma ProductNonNegative(a: real, b: real)
    requires a >= 0.0 && b >= 0.0
    ensures a * b >= 0.0
  {
  }

  lemma OverRiskNonNegative(x: real, riskAmount: real)
    requires x >= 0.0 && riskAmount > 0.0
    ensures OverRisk(x, riskAmount) >= 0.0
  {
  }

  lemma FeeNonNegative(c: Costs, price: real, qty: real)
    requires c.takerFeeBps >= 0.0
    ensures Fee(c, price, qty) >= 0.0
  {
  }

  /** Fees are never negative; slippage is not while the two mids of the trade add up to nothing negative. */
  lemma CostsNonNegative(side: Direction, entry: real, exit: real, qty: real, riskAmount: real, c: Costs)
    requires c.takerFeeBps >= 0.0 && c.slippageBps >= 0.0
    requires entry + exit >= 0.0 && qty >= 0.0 && riskAmount > 0.0
    ensures var t := SettleTrade(side, entry, exit, qty, riskAmount, c);
            t.fees >= 0.0 && t.feeR >= 0.0 && t.slippageCost >= 0.0 && t.slippageR >= 0.0
  {
    var t := SettleTrade(side, entry, exit, qty, riskAmount, c);
    FeeNonNegative(c, FillPrice(c, entry, side, EntryLeg), qty);
    FeeNonNegative(c, FillPrice(c, exit, side, ExitLeg), qty);
    OverRiskNonNegative(t.fees, riskAmount);
    ProductNonNegative(entry + exit, qty);
    ProductNonNegative(c.slippageBps / 10000.0, (entry + exit) * qty);
    SlippageIsRateOnBothLegs(side, entry, exit, qty, c);
    OverRiskNonNegative(t.slippageCost, riskAmount);
  }
}
