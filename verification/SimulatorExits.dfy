/** What every trade of the ledger was, read off the bars alone: how it was opened, which level or
    limit took it out, at what price, and what it made (backtesting/execution_simulator.py). */
module SimulatorExits {
  import opened Common
  import opened CostModel
  import opened Simulator
  import opened Statistics

  // ---- exits ----

  predicate LowReaches(bar: Bar, level: real) {
    bar.low.Some? && bar.low.value <= level
  }

  predicate HighReaches(bar: Bar, level: real) {
    bar.high.Some? && bar.high.value >= level
  }

  /** The bar trades at or through the stop of p. */
  predicate Stopped(p: Position, bar: Bar) {
    match p.side
    case LONG => LowReaches(bar, p.stop)
    case SHORT => HighReaches(bar, p.stop)
  }

  /** The bar trades at or through the target of p. */
  predicate Reached(p: Position, bar: Bar) {
    match p.side
    case LONG => HighReaches(bar, p.target)
    case SHORT => LowReaches(bar, p.target)
  }

  /** Bar j is at least the last one p may be held for, and has a close to leave at. */
  predicate TimedOut(m: Setup, p: Position, j: nat, bar: Bar) {
    j + 1 >= p.entryBar + m.maxHolding && bar.close.Some?
  }

  /** Nothing takes p out on bar j. */
  predicate Quiet(m: Setup, p: Position, j: nat, bar: Bar) {
    !Stopped(p, bar) && !Reached(p, bar) && !TimedOut(m, p, j, bar)
  }

  /** One trade, as the bars it lived through explain it. */
  predicate ExplainedBy(m: Setup, bars: seq<Bar>, t: Trade) {
    && t.pos.entryBar <= t.exitBar < |bars| && t.barsHeld == t.exitBar - t.pos.entryBar + 1
    && (forall j :: t.pos.entryBar <= j < t.exitBar ==> Quiet(m, t.pos, j, bars[j]))
    && var bar := bars[t.exitBar];
       && (t.reason == STOP <==> Stopped(t.pos, bar))
       && (t.reason == TARGET <==> Reached(t.pos, bar) && !Stopped(t.pos, bar))
       && (t.reason == MAX_HOLDING <==> TimedOut(m, t.pos, t.exitBar, bar) && !Reached(t.pos, bar) && !Stopped(t.pos, bar))
       && (t.reason == FORCE_CLOSE <==> Quiet(m, t.pos, t.exitBar, bar))
       && (t.reason == STOP ==> t.exitIntended == t.pos.stop)
       && (t.reason == TARGET ==> t.exitIntended == t.pos.target)
       && (t.reason == MAX_HOLDING || t.reason == FORCE_CLOSE ==> bar.close == Some(t.exitIntended))
       && (t.reason == FORCE_CLOSE ==> t.exitBar == |bars| - 1)
  }

  lemma ExitIs(m: Setup, bars: seq<Bar>, p: Position, j: nat)
    requires p.entryBar <= j < |bars|
    ensures ExitAt(m, bars, p, j) ==
            if Stopped(p, bars[j]) then Some((STOP, p.stop))
            else if Reached(p, bars[j]) then Some((TARGET, p.target))
            else if TimedOut(m, p, j, bars[j]) then Some((MAX_HOLDING, bars[j].close.value))
            else None
  {
  }

  lemma TimedIsExplained(m: Setup, bars: seq<Bar>, t: Trade)
    requires TimedExit(m, bars, t)
    ensures ExplainedBy(m, bars, t)
  {
    forall j | t.pos.entryBar <= j < |bars| && (j <= t.exitBar || t.reason == FORCE_CLOSE)
      ensures ExitAt(m, bars, t.pos, j).None? <==> Quiet(m, t.pos, j, bars[j])
    {
      ExitIs(m, bars, t.pos, j);
    }
    ExitIs(m, bars, t.pos, t.exitBar);
  }

  /** Every trade of the ledger leaves on the first bar that reaches its stop or its target or its last bar, at the
      stop if that bar reaches it, else at the target, else at the close; and at the end of the frame only if none did. */
  lemma EveryExitIsExplained(m: Setup, bars: seq<Bar>, k: nat)
    requires k < |Trades(m, bars, 0)|
    ensures ExplainedBy(m, bars, Trades(m, bars, 0)[k])
  {
    LedgerIsTimed(m, bars);
    TimedIsExplained(m, bars, Trades(m, bars, 0)[k]);
  }

  // ---- entries ----

  /** What a trade takes off a price: a buyer pays the slippage rate more, a seller gets it less. */
  function Slipped(c: Costs, mid: real, buys: bool): real {
    if buys then mid + mid * c.slippageBps / 10000.0 else mid - mid * c.slippageBps / 10000.0
  }

  /** Bar i, with the open after it, can open a position. */
  predicate Usable(m: Setup, bars: seq<Bar>, i: nat)
    requires i + 1 < |bars|
  {
    && m.matches(bars[i]).Some? && bars[i].atr.Some? && bars[i].atr.value > 0.0
    && bars[i + 1].open.Some? && bars[i + 1].open.value > 0.0
    && m.stopAtr != 0.0 && m.equity * m.riskPct > 0.0
  }

  /** p is what bar i opens at the open of bar i + 1: levels at their multiples of bar i's ATR from the slipped
      fill, sized so that the way to the stop costs the risk amount. */
  predicate OpenedBy(m: Setup, bars: seq<Bar>, i: nat, p: Position)
    requires i + 1 < |bars| && Usable(m, bars, i)
  {
    var atr, up := bars[i].atr.value, if p.side == LONG then 1.0 else -1.0;
    && p.entryBar == i + 1 && m.matches(bars[i]) == Some(p.side) && p.regime == bars[i].regime
    && bars[i + 1].open == Some(p.entryIntended) && p.entryFill == Slipped(m.costs, p.entryIntended, p.side == LONG)
    && p.stop == p.entryFill - up * (m.stopAtr * atr) && p.target == p.entryFill + up * (m.targetAtr * atr)
    && p.riskAmount == m.equity * m.riskPct && p.qty > 0.0 && p.qty * Abs(m.stopAtr * atr) == p.riskAmount
  }

  lemma ProductNonZero(a: real, b: real)
    requires a != 0.0 && b > 0.0
    ensures a * b != 0.0
  {
  }

  lemma ShareOf(amount: real, unit: real, qty: real)
    requires unit > 0.0 && qty == amount / unit
    ensures qty * unit == amount && (qty > 0.0 <==> amount > 0.0)
  {
  }

  lemma FillIsSlipped(c: Costs, mid: real, side: Direction, leg: Leg)
    ensures FillPrice(c, mid, side, leg) == Slipped(c, mid, (side == LONG) == (leg == EntryLeg))
  {
  }

  lemma SignalIs(m: Setup, bars: seq<Bar>, i: nat)
    requires i + 1 < |bars|
    ensures Signal(m, bars, i).Some? <==> Usable(m, bars, i)
    ensures Usable(m, bars, i) ==> OpenedBy(m, bars, i, Signal(m, bars, i).value)
  {
    var row, next := bars[i], bars[i + 1];
    if m.matches(row).Some? && row.atr.Some? && row.atr.value > 0.0 && next.open.Some? && next.open.value > 0.0 {
      var side, atr := m.matches(row).value, row.atr.value;
      var fill := FillPrice(m.costs, next.open.value, side, EntryLeg);
      var stop := StopPrice(fill, atr, side, m.stopAtr);
      var perUnit := Abs(fill - stop);
      FillIsSlipped(m.costs, next.open.value, side, EntryLeg);
      assert perUnit == Abs(m.stopAtr * atr);
      if m.stopAtr != 0.0 {
        ProductNonZero(m.stopAtr, atr);
        ShareOf(m.equity * m.riskPct, perUnit, m.equity * m.riskPct / perUnit);
      } else {
        assert m.stopAtr * atr == 0.0;
      }
    }
  }

  /** Every position of the ledger is opened by the first bar that can open one once the simulator is flat. */
  lemma EveryEntryIsExplained(m: Setup, bars: seq<Bar>, k: nat)
    requires k < |Trades(m, bars, 0)|
    ensures var trades := Trades(m, bars, 0);
            var p, flat := trades[k].pos, if k == 0 then 0 else trades[k - 1].exitBar + 1;
            && flat < p.entryBar < |bars|
            && Usable(m, bars, p.entryBar - 1) && OpenedBy(m, bars, p.entryBar - 1, p)
            && forall i: nat :: flat <= i && i + 1 < p.entryBar ==> !Usable(m, bars, i)
  {
    LedgerIsTimed(m, bars);
    var trades := Trades(m, bars, 0);
    var p := trades[k].pos;
    assert FirstSignal(m, bars, FlatFrom(trades, 0, k), p);
    SignalIs(m, bars, p.entryBar - 1);
    forall i: nat | FlatFrom(trades, 0, k) <= i && i + 1 < p.entryBar ensures !Usable(m, bars, i) {
      SignalIs(m, bars, i);
    }
  }

  // ---- money ----

  /** What a trade made in money: the move between its two mids, less the slippage rate and the fee rate on both legs. */
  predicate MoneyIs(s: Settlement, side: Direction, entry: real, exit: real, entryFill: real, exitFill: real, qty: real, c: Costs) {
    var move := if side == LONG then exit - entry else entry - exit;
    && s.gross == move * qty
    && s.slippageCost == c.slippageBps / 10000.0 * ((entry + exit) * qty)
    && s.fees == (Abs(entryFill * qty) + Abs(exitFill * qty)) * c.takerFeeBps / 10000.0
    && s.net == s.gross - s.slippageCost - s.fees
  }

  /** The R figures are the money figures over the risk amount. */
  predicate InR(s: Settlement, riskAmount: real) {
    IsShare(s.r, s.net, riskAmount) && IsShare(s.feeR, s.fees, riskAmount) && IsShare(s.slippageR, s.slippageCost, riskAmount)
  }

  predicate BooksMoney(c: Costs, t: Trade) {
    && t.exitPrice == Slipped(c, t.exitIntended, t.pos.side == SHORT)
    && MoneyIs(t.settlement, t.pos.side, t.pos.entryIntended, t.exitIntended, t.pos.entryFill, t.exitPrice, t.pos.qty, c)
    && InR(t.settlement, t.pos.riskAmount)
  }

  lemma FeesOfBoth(c: Costs, a: real, b: real, qty: real)
    ensures Fee(c, a, qty) + Fee(c, b, qty) == (Abs(a * qty) + Abs(b * qty)) * c.takerFeeBps / 10000.0
  {
  }

  lemma FeesAre(side: Direction, entry: real, exit: real, qty: real, riskAmount: real, c: Costs,
                s: Settlement, entryFill: real, exitFill: real)
    requires s == SettleTrade(side, entry, exit, qty, riskAmount, c)
    requires entryFill == FillPrice(c, entry, side, EntryLeg) && exitFill == FillPrice(c, exit, side, ExitLeg)
    ensures s.fees == (Abs(entryFill * qty) + Abs(exitFill * qty)) * c.takerFeeBps / 10000.0
  {
    FeesOfBoth(c, entryFill, exitFill, qty);
    assert s.fees == Fee(c, entryFill, qty) + Fee(c, exitFill, qty);
  }

  lemma RsAre(side: Direction, entry: real, exit: real, qty: real, riskAmount: real, c: Costs, s: Settlement)
    requires riskAmount > 0.0 && s == SettleTrade(side, entry, exit, qty, riskAmount, c)
    ensures InR(s, riskAmount)
  {
    QuotientIsShare(s.net, riskAmount);
    QuotientIsShare(s.fees, riskAmount);
    QuotientIsShare(s.slippageCost, riskAmount);
  }

  lemma GrossIs(side: Direction, entry: real, exit: real, qty: real, riskAmount: real, c: Costs, s: Settlement, move: real)
    requires s == SettleTrade(side, entry, exit, qty, riskAmount, c)
    requires move == if side == LONG then exit - entry else entry - exit
    ensures s.gross == move * qty
  {
    assert move == SignedMove(side, entry, exit);
  }

  lemma SlippageAndNetAre(side: Direction, entry: real, exit: real, qty: real, riskAmount: real, c: Costs, s: Settlement)
    requires s == SettleTrade(side, entry, exit, qty, riskAmount, c)
    ensures s.slippageCost == c.slippageBps / 10000.0 * ((entry + exit) * qty)
    ensures s.net == s.gross - s.slippageCost - s.fees
  {
    SlippageIsRateOnBothLegs(side, entry, exit, qty, c);
    NetPlusCostsIsGross(side, entry, exit, qty, riskAmount, c);
  }

  lemma SettlesMoney(side: Direction, entry: real, exit: real, qty: real, riskAmount: real, c: Costs,
                     s: Settlement, entryFill: real, exitFill: real)
    requires s == SettleTrade(side, entry, exit, qty, riskAmount, c)
    requires entryFill == FillPrice(c, entry, side, EntryLeg) && exitFill == FillPrice(c, exit, side, ExitLeg)
    ensures MoneyIs(s, side, entry, exit, entryFill, exitFill, qty, c)
  {
    var move := if side == LONG then exit - entry else entry - exit;
    GrossIs(side, entry, exit, qty, riskAmount, c, s, move);
    FeesAre(side, entry, exit, qty, riskAmount, c, s, entryFill, exitFill);
    SlippageAndNetAre(side, entry, exit, qty, riskAmount, c, s);
  }

  lemma CloseBooksMoney(m: Setup, p: Position, exitBar: nat, reason: Reason, exit: real)
    requires p.entryBar <= exitBar && p.riskAmount > 0.0
    requires p.entryFill == FillPrice(m.costs, p.entryIntended, p.side, EntryLeg)
    ensures BooksMoney(m.costs, Close(m, p, exitBar, reason, exit))
  {
    var t := Close(m, p, exitBar, reason, exit);
    FillIsSlipped(m.costs, exit, p.side, ExitLeg);
    SettlesMoney(p.side, p.entryIntended, exit, p.qty, p.riskAmount, m.costs, t.settlement, p.entryFill, t.exitPrice);
    RsAre(p.side, p.entryIntended, exit, p.qty, p.riskAmount, m.costs, t.settlement);
  }

  /** Every trade of the ledger is settled on the prices it traded at. */
  lemma EveryTradeBooksMoney(m: Setup, bars: seq<Bar>, k: nat)
    requires k < |Trades(m, bars, 0)|
    ensures BooksMoney(m.costs, Trades(m, bars, 0)[k])
  {
    var t := Trades(m, bars, 0)[k];
    LedgerIsTimed(m, bars);
    EveryEntryIsExplained(m, bars, k);
    FillIsSlipped(m.costs, t.pos.entryIntended, t.pos.side, EntryLeg);
    CloseBooksMoney(m, t.pos, t.exitBar, t.reason, t.exitIntended);
    assert TimedExit(m, bars, t);
  }
}
