/** Conservation of cost over whole simulated ledgers (backtesting/performance_metrics.py,
    backtesting/cost_model.py, backtesting/robustness_scorer.py). */
module BacktestMetrics {
  import opened Common
  import opened CostModel
  import opened Simulator
  import opened Grouping

  function NetR(t: Trade): real { t.settlement.r }
  function FeeR(t: Trade): real { t.settlement.feeR }
  function SlippageR(t: Trade): real { t.settlement.slippageR }

  /** R before any cost: the mid-to-mid move over the risk amount. */
  function GrossR(t: Trade): real {
    OverRisk(SignedMove(t.pos.side, t.pos.entryIntended, t.exitIntended) * t.pos.qty, t.pos.riskAmount)
  }

  /** A trade as the simulator settles it. */
  predicate SettledBy(c: Costs, t: Trade) {
    t.settlement == SettleTrade(t.pos.side, t.pos.entryIntended, t.exitIntended, t.pos.qty, t.pos.riskAmount, c)
  }

  lemma TradeAddsUp(c: Costs, t: Trade)
    requires SettledBy(c, t)
    ensures NetR(t) + FeeR(t) + SlippageR(t) == GrossR(t)
  {
    NetPlusCostsIsGross(t.pos.side, t.pos.entryIntended, t.exitIntended, t.pos.qty, t.pos.riskAmount, c);
  }

  lemma {:induction false} NetPlusCostsIsGrossInTotal(c: Costs, trades: seq<Trade>)
    requires forall i :: 0 <= i < |trades| ==> SettledBy(c, trades[i])
    ensures Total(NetR, trades) + Total(FeeR, trades) + Total(SlippageR, trades) == Total(GrossR, trades)
  {
    forall i | 0 <= i < |trades| ensures NetR(trades[i]) + FeeR(trades[i]) + SlippageR(trades[i]) == GrossR(trades[i]) {
      TradeAddsUp(c, trades[i]);
    }
    TotalOfSums(NetR, FeeR, SlippageR, GrossR, trades);
  }

  // ---- signs of the costs ----

  predicate PositivePrices(bars: seq<Bar>) {
    forall i :: 0 <= i < |bars| ==>
      && (bars[i].open.Some? ==> bars[i].open.value > 0.0) && (bars[i].high.Some? ==> bars[i].high.value > 0.0)
      && (bars[i].low.Some? ==> bars[i].low.value > 0.0) && (bars[i].close.Some? ==> bars[i].close.value > 0.0)
  }

  /** Stop and target distances are positive: the spec parser admits no other exit rules. */
  predicate ValidExits(m: Setup) {
    m.stopAtr > 0.0 && m.targetAtr > 0.0
  }

  lemma PositionIsReal(m: Setup, bars: seq<Bar>, i: nat)
    requires i + 1 < |bars| && Signal(m, bars, i).Some?
    ensures var p := Signal(m, bars, i).value;
            p.qty > 0.0 && p.riskAmount > 0.0 && p.entryIntended > 0.0
  {
  }

  /** The levels set at entry: a long's target and, at most 200% slippage, a short's stop above minus the entry. */
  lemma LevelsBounded(m: Setup, bars: seq<Bar>, i: nat)
    requires i + 1 < |bars| && Signal(m, bars, i).Some?
    requires ValidExits(m) && 0.0 <= m.costs.slippageBps <= 20000.0
    ensures var p := Signal(m, bars, i).value;
            && (p.side == LONG ==> p.target > 0.0)
            && (p.side == SHORT ==> p.stop > -p.entryIntended)
  {
    var p := Signal(m, bars, i).value;
    var atr := bars[i].atr.value;
    FillBounded(m.costs, p.entryIntended, p.side);
    ProductPositive(m.stopAtr, atr);
    ProductPositive(m.targetAtr, atr);
  }

  lemma FillBounded(c: Costs, mid: real, side: Direction)
    requires mid > 0.0 && 0.0 <= c.slippageBps <= 20000.0
    ensures FillPrice(c, mid, side, EntryLeg) >= -mid && (side == LONG ==> FillPrice(c, mid, side, EntryLeg) > 0.0)
  {
    if side == LONG {
      ProductPositive(mid, 1.0 + c.slippageBps / 10000.0);
    } else {
      ProductNonNegative(mid, 2.0 - c.slippageBps / 10000.0);
      assert mid * (1.0 - c.slippageBps / 10000.0) == mid * (2.0 - c.slippageBps / 10000.0) - mid;
    }
  }

  lemma ProductPositive(a: real, b: real)
    requires a > 0.0 && b > 0.0
    ensures a * b > 0.0
  {
  }

  /** The two intended prices of a trade add up to something positive while slippage is at most 20000 bps. */
  lemma TradedNotionalPositive(m: Setup, bars: seq<Bar>, t: Trade)
    requires PositivePrices(bars) && ValidExits(m) && 0.0 <= m.costs.slippageBps <= 20000.0
    requires TimedExit(m, bars, t) && t.pos.entryBar > 0 && Signal(m, bars, t.pos.entryBar - 1) == Some(t.pos)
    ensures t.pos.entryIntended + t.exitIntended > 0.0
  {
    PositionIsReal(m, bars, t.pos.entryBar - 1);
    LevelsBounded(m, bars, t.pos.entryBar - 1);
  }

  /** No trade of the ledger has a negative fee or slippage cost, in money or in R. */
  predicate CostsNonNegative(trades: seq<Trade>) {
    forall i :: 0 <= i < |trades| ==>
      trades[i].settlement.slippageCost >= 0.0 && SlippageR(trades[i]) >= 0.0 && FeeR(trades[i]) >= 0.0
  }

  lemma TradeCosts(m: Setup, bars: seq<Bar>, t: Trade)
    requires PositivePrices(bars) && ValidExits(m)
    requires 0.0 <= m.costs.slippageBps <= 20000.0 && m.costs.takerFeeBps >= 0.0
    requires TimedExit(m, bars, t) && t.pos.entryBar > 0 && Signal(m, bars, t.pos.entryBar - 1) == Some(t.pos)
    ensures t.settlement.slippageCost >= 0.0 && SlippageR(t) >= 0.0 && FeeR(t) >= 0.0
  {
    var p := t.pos;
    TradedNotionalPositive(m, bars, t);
    PositionIsReal(m, bars, p.entryBar - 1);
    CostModel.CostsNonNegative(p.side, p.entryIntended, t.exitIntended, p.qty, p.riskAmount, m.costs);
  }

  lemma LedgerCosts(m: Setup, bars: seq<Bar>)
    requires PositivePrices(bars) && ValidExits(m)
    requires 0.0 <= m.costs.slippageBps <= 20000.0 && m.costs.takerFeeBps >= 0.0
    ensures CostsNonNegative(Trades(m, bars, 0))
  {
    LedgerIsTimed(m, bars);
    var trades := Trades(m, bars, 0);
    forall i | 0 <= i < |trades|
      ensures trades[i].settlement.slippageCost >= 0.0 && SlippageR(trades[i]) >= 0.0 && FeeR(trades[i]) >= 0.0
    {
      assert FirstSignal(m, bars, FlatFrom(trades, 0, i), trades[i].pos);
      TradeCosts(m, bars, trades[i]);
    }
  }

  /** Slippage at this rate is a cost on every trade of every ledger. */
  ghost predicate SlippageAlwaysCosts(bps: real) {
    forall m: Setup, bars: seq<Bar> |
      m.costs.slippageBps == bps && m.costs.takerFeeBps >= 0.0 && PositivePrices(bars) && ValidExits(m) ::
      CostsNonNegative(Trades(m, bars, 0))
  }

  /** A short whose entry fill has slipped so far below zero that its stop is negative too. */
  lemma SlippageGain(bps: real) returns (m: Setup, bars: seq<Bar>, t: Trade)
    requires bps > 20000.0
    ensures m.costs == Costs(0.0, bps) && PositivePrices(bars) && ValidExits(m)
    ensures Trades(m, bars, 0) == [t] && SettledBy(m.costs, t)
    ensures t.settlement.slippageCost < 0.0 && SlippageR(t) < 0.0 && FeeR(t) == 0.0 && GrossR(t) > 0.0
  {
    var s := bps / 10000.0;
    var atr := (s - 2.0) / 2.0;
    m := Setup(_ => Some(SHORT), 1.0, 1.0, 1, Costs(0.0, bps), 1.0, 1.0);
    var one := Some(1.0);
    bars := [Bar(one, one, one, one, Some(atr), None, map[]), Bar(one, one, one, one, one, None, map[])];
    var p := Signal(m, bars, 0).value;
    assert p.entryFill == 1.0 - s && p.stop == 1.0 - s + atr == -s / 2.0;
    assert p.qty == 1.0 / atr;
    assert ExitAt(m, bars, p, 1) == Some((STOP, p.stop));
    t := Close(m, p, 1, STOP, p.stop);
    assert Trades(m, bars, 2) == [];
    assert Trades(m, bars, 0) == Hold(m, bars, p, 1) == [t];
    SlippageIsRateOnBothLegs(SHORT, 1.0, p.stop, p.qty, m.costs);
    NegativeTimesPositive(1.0 + p.stop, p.qty);
    NegativeTimesPositive((1.0 + p.stop) * p.qty, s);
    ProductPositive(1.0 - p.stop, p.qty);
  }

  lemma SlippageGainBeyond(bps: real)
    requires bps > 20000.0
    ensures !SlippageAlwaysCosts(bps)
  {
    var m, bars, t := SlippageGain(bps);
    assert !CostsNonNegative([t]) by { assert [t][0] == t; }
  }

  lemma NegativeTimesPositive(a: real, b: real)
    requires a < 0.0 && b > 0.0
    ensures a * b < 0.0
  {
  }

  /** Slippage is a cost on every ledger over positive prices exactly up to a rate of 200%;
      beyond that a fill price below zero can turn it into a gain. */
  lemma SlippageCostsExactlyUpTo(bps: real)
    requires bps >= 0.0
    ensures SlippageAlwaysCosts(bps) <==> bps <= 20000.0
  {
    if bps <= 20000.0 {
      forall m: Setup, bars: seq<Bar> | m.costs.slippageBps == bps && m.costs.takerFeeBps >= 0.0 &&
        PositivePrices(bars) && ValidExits(m)
        ensures CostsNonNegative(Trades(m, bars, 0))
      {
        LedgerCosts(m, bars);
      }
    } else {
      SlippageGainBeyond(bps);
    }
  }

  // ---- cost robustness ----

  function Clamp01(x: real): real {
    Max(0.0, Min(1.0, x))
  }

  /** _cost_robustness: the share of the pre-cost edge that survives the costs. */
  function CostRobustness(netR: real, feeR: real, slippageR: real): real {
    var gross := netR + (feeR + slippageR);
    if netR <= 0.0 || gross <= 0.0 then 0.0 else Clamp01(netR / gross)
  }

  lemma {:induction false} TotalNonNegative(weight: Trade -> real, trades: seq<Trade>)
    requires forall i :: 0 <= i < |trades| ==> weight(trades[i]) >= 0.0
    ensures Total(weight, trades) >= 0.0
  {
    if trades != [] { TotalNonNegative(weight, trades[..|trades| - 1]); }
  }

  lemma ShareOfWhole(part: real, whole: real)
    requires 0.0 < part <= whole
    ensures 0.0 < part / whole <= 1.0
  {
  }

  lemma LedgerAddsUp(m: Setup, bars: seq<Bar>)
    ensures var trades := Trades(m, bars, 0);
            Total(NetR, trades) + Total(FeeR, trades) + Total(SlippageR, trades) == Total(GrossR, trades)
  {
    var trades := Trades(m, bars, 0);
    LedgerIsTimed(m, bars);
    forall i | 0 <= i < |trades| ensures SettledBy(m.costs, trades[i]) {
      assert TimedExit(m, bars, trades[i]);
    }
    NetPlusCostsIsGrossInTotal(m.costs, trades);
  }

  lemma RobustnessIsShare(net: real, fees: real, slippage: real, gross: real)
    requires net + fees + slippage == gross && fees >= 0.0 && slippage >= 0.0
    ensures net > 0.0 ==> gross >= net && CostRobustness(net, fees, slippage) == net / gross && 0.0 < net / gross <= 1.0
  {
    if net > 0.0 { ShareOfWhole(net, gross); }
  }

  /** Over any simulated ledger on positive prices: net, fees and slippage add up to the gross edge, at any rate.
      Up to 20000 bps no cost is negative, and the survival ratio is net over gross, in (0, 1]. */
  lemma CostRobustnessOfLedger(m: Setup, bars: seq<Bar>)
    requires PositivePrices(bars) && ValidExits(m)
    requires m.costs.slippageBps >= 0.0 && m.costs.takerFeeBps >= 0.0
    ensures var trades := Trades(m, bars, 0);
            var net, fees, slippage := Total(NetR, trades), Total(FeeR, trades), Total(SlippageR, trades);
            var gross := Total(GrossR, trades);
            && net + fees + slippage == gross
            && (net <= 0.0 ==> CostRobustness(net, fees, slippage) == 0.0)
            && (m.costs.slippageBps <= 20000.0 ==>
                  fees >= 0.0 && slippage >= 0.0 &&
                  (net > 0.0 ==> gross >= net && CostRobustness(net, fees, slippage) == net / gross && 0.0 < net / gross <= 1.0))
  {
    var trades := Trades(m, bars, 0);
    LedgerAddsUp(m, bars);
    if m.costs.slippageBps <= 20000.0 {
      LedgerCosts(m, bars);
      TotalNonNegative(FeeR, trades);
      TotalNonNegative(SlippageR, trades);
      RobustnessIsShare(Total(NetR, trades), Total(FeeR, trades), Total(SlippageR, trades), Total(GrossR, trades));
    }
  }

  /** The clamp leaves the survival ratio of a ledger as it is. */
  predicate Unclamped(trades: seq<Trade>) {
    var net, fees, slippage := Total(NetR, trades), Total(FeeR, trades), Total(SlippageR, trades);
    var gross := net + (fees + slippage);
    net > 0.0 && gross > 0.0 ==> CostRobustness(net, fees, slippage) == net / gross
  }

  /** At this slippage rate the clamp acts on no ledger. */
  ghost predicate ClampNeverActs(bps: real) {
    forall m: Setup, bars: seq<Bar> |
      m.costs.slippageBps == bps && m.costs.takerFeeBps >= 0.0 && PositivePrices(bars) && ValidExits(m) ::
      Unclamped(Trades(m, bars, 0))
  }

  lemma TotalOfOne(weight: Trade -> real, t: Trade)
    ensures Total(weight, [t]) == weight(t)
  {
    assert [t][..0] == [];
  }

  lemma MoreThanWhole(part: real, whole: real)
    requires part > whole > 0.0
    ensures part / whole > 1.0
  {
  }

  /** Where slippage turns into a gain, more survives than there was. */
  lemma ClampActsBeyond(bps: real)
    requires bps > 20000.0
    ensures !ClampNeverActs(bps)
  {
    var m, bars, t := SlippageGain(bps);
    TotalOfOne(NetR, t);
    TotalOfOne(FeeR, t);
    TotalOfOne(SlippageR, t);
    TradeAddsUp(m.costs, t);
    MoreThanWhole(NetR(t), GrossR(t));
    assert !Unclamped([t]);
  }

  /** The clamp of the survival ratio never acts, on any ledger over positive prices, exactly up to 20000 bps. */
  lemma ClampNeverActsExactlyUpTo(bps: real)
    requires bps >= 0.0
    ensures ClampNeverActs(bps) <==> bps <= 20000.0
  {
    if bps <= 20000.0 {
      forall m: Setup, bars: seq<Bar> | m.costs.slippageBps == bps && m.costs.takerFeeBps >= 0.0 &&
        PositivePrices(bars) && ValidExits(m)
        ensures Unclamped(Trades(m, bars, 0))
      {
        CostRobustnessOfLedger(m, bars);
      }
    } else {
      ClampActsBeyond(bps);
    }
  }
}
