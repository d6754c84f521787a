/** Exit math shared by the paper and live position kernels
    (execution/paper_position_kernel.py, execution/live_position_kernel.py). */
module PositionKernel {
  import opened Common

  datatype Candle = Candle(ts: Option<string>, high: real, low: real)

  datatype Reason = ManualExit | StopLoss | TakeProfit | TimeExit

  /** The fields of a position that never change while it is open. */
  datatype Plan = Plan(direction: Direction, entry: real, stopLoss: real, takeProfit: real, risk: real)

  /** holding_candles and last_counted_candle_ts ("" while nothing was counted). */
  datatype Holding = Holding(count: nat, lastTs: string)

  datatype Exit = Exit(reason: Reason, price: real, resultR: real)

  /** What one settle call sees; `maxHold` is the holding limit of the timeframe it is called with. */
  datatype Tick = Tick(candle: Option<Candle>, lastClose: Option<real>, manual: bool, maxHold: int)

  const FRESH := Holding(0, "")

  function RiskOf(entry: real, stopLoss: real): real {
    if stopLoss > 0.0 then Abs(entry - stopLoss) else 0.0
  }

  function ResultR(plan: Plan, exit: real): real {
    if plan.risk <= 0.0 then 0.0 else SignedMove(plan.direction, plan.entry, exit) / plan.risk
  }

  function AdvanceHolding(h: Holding, candle: Option<Candle>): Holding {
    if candle.Some? && candle.value.ts.Some? then
      if candle.value.ts.value == h.lastTs then h else Holding(h.count + 1, candle.value.ts.value)
    else
      Holding(h.count + 1, h.lastTs)
  }

  /** One call of settle_trade_plan: the advanced holding state and the exit, if any. */
  function SettleTradePlan(plan: Plan, h: Holding, t: Tick): (Holding, Option<Exit>) {
    if t.manual && t.lastClose.Some? then
      (h, Some(Exit(ManualExit, t.lastClose.value, ResultR(plan, t.lastClose.value))))
    else
      var h' := AdvanceHolding(h, t.candle);
      var intrabar := if t.candle.Some? && plan.risk > 0.0 then Intrabar(plan, t.candle.value) else None;
      if intrabar.Some? then
        (h', intrabar)
      else if t.lastClose.Some? && h'.count >= t.maxHold then
        (h', Some(Exit(TimeExit, t.lastClose.value, ResultR(plan, t.lastClose.value))))
      else
        (h', None)
  }

  function Intrabar(plan: Plan, c: Candle): Option<Exit>
    requires plan.risk > 0.0
  {
    if plan.direction == LONG then
      if c.low <= plan.stopLoss then Some(Exit(StopLoss, plan.stopLoss, -1.0))
      else if c.high >= plan.takeProfit then
        Some(Exit(TakeProfit, plan.takeProfit, (plan.takeProfit - plan.entry) / plan.risk))
      else None
    else
      if c.high >= plan.stopLoss then Some(Exit(StopLoss, plan.stopLoss, -1.0))
      else if c.low <= plan.takeProfit then
        Some(Exit(TakeProfit, plan.takeProfit, (plan.entry - plan.takeProfit) / plan.risk))
      else None
  }

  /** The live kernel's decision: only the reason, the price comes from the venue. */
  function ExitSignal(plan: Plan, h: Holding, t: Tick): (Holding, Option<Reason>) {
    if t.manual && t.lastClose.Some? then
      (h, Some(ManualExit))
    else
      var h' := AdvanceHolding(h, t.candle);
      var stopped := t.candle.Some? && plan.risk > 0.0 &&
        (if plan.direction == LONG then t.candle.value.low <= plan.stopLoss else t.candle.value.high >= plan.stopLoss);
      var target := t.candle.Some? && plan.risk > 0.0 &&
        (if plan.direction == LONG then t.candle.value.high >= plan.takeProfit else t.candle.value.low <= plan.takeProfit);
      (h', if stopped then Some(StopLoss)
           else if target then Some(TakeProfit)
           else if t.lastClose.Some? && h'.count >= t.maxHold then Some(TimeExit)
           else None)
  }

  // ---- whole feeds ----

  /** How a feed ends: the holding state reached, the exit, and the tick it happened on. */
  datatype Ending = StillOpen(h: Holding) | Exited(h: Holding, exit: Exit, at: nat)

  /** Settle on every tick in turn until the position exits. */
  function PaperRun(plan: Plan, h: Holding, feed: seq<Tick>, from: nat): Ending
    decreases |feed|
  {
    if feed == [] then StillOpen(h)
    else
      var (h', e) := SettleTradePlan(plan, h, feed[0]);
      if e.Some? then Exited(h', e.value, from) else PaperRun(plan, h', feed[1..], from + 1)
  }

  /** The same feed through the live kernel, every close order filling at once. */
  function LiveRun(plan: Plan, h: Holding, feed: seq<Tick>, from: nat): Option<(Reason, nat, Holding)>
    decreases |feed|
  {
    if feed == [] then None
    else
      var (h', e) := ExitSignal(plan, h, feed[0]);
      if e.Some? then Some((e.value, from, h')) else LiveRun(plan, h', feed[1..], from + 1)
  }

  /** Live and paper leave the position on the same candle, for the same reason,
      with the same holding count, on every feed. */
  lemma {:induction false} LiveExitsWithPaper(plan: Plan, h: Holding, feed: seq<Tick>, from: nat)
    ensures LiveRun(plan, h, feed, from) ==
            match PaperRun(plan, h, feed, from) {
              case StillOpen(_) => None
              case Exited(h', e, at) => Some((e.reason, at, h'))
            }
    decreases |feed|
  {
    if feed != [] {
      LiveExitsWithPaper(plan, SettleTradePlan(plan, h, feed[0]).0, feed[1..], from + 1);
    }
  }

  // ---- stuttering ----

  /** A tick the pipeline may be re-run on: a timestamped candle, no manual exit. */
  predicate Rerunnable(t: Tick) {
    t.candle.Some? && t.candle.value.ts.Some? && !t.manual
  }

  function Repeat(t: Tick, n: nat): seq<Tick> {
    if n == 0 then [] else [t] + Repeat(t, n - 1)
  }

  /** `feed` with tick i delivered reps[i] times in a row. */
  function Stutter(feed: seq<Tick>, reps: seq<nat>): seq<Tick>
    requires |feed| == |reps|
  {
    if feed == [] then [] else Repeat(feed[0], reps[0]) + Stutter(feed[1..], reps[1..])
  }

  /** An ending without the position in the feed. */
  function Result(e: Ending): (Holding, Option<Exit>) {
    match e
    case StillOpen(h) => (h, None)
    case Exited(h, x, _) => (h, Some(x))
  }

  lemma {:induction false} RunIndexIrrelevant(plan: Plan, h: Holding, feed: seq<Tick>, a: nat, b: nat)
    ensures Result(PaperRun(plan, h, feed, a)) == Result(PaperRun(plan, h, feed, b))
    decreases |feed|
  {
    if feed != [] {
      RunIndexIrrelevant(plan, SettleTradePlan(plan, h, feed[0]).0, feed[1..], a + 1, b + 1);
    }
  }

  /** A tick that did not exit the position leaves it unchanged when delivered again. */
  lemma {:induction false} RepeatIsAbsorbed(plan: Plan, h: Holding, t: Tick, n: nat, rest: seq<Tick>, from: nat)
    requires Rerunnable(t)
    requires SettleTradePlan(plan, h, t) == (h, None) && h.lastTs == t.candle.value.ts.value
    ensures Result(PaperRun(plan, h, Repeat(t, n) + rest, from)) == Result(PaperRun(plan, h, rest, from))
  {
    if n == 0 {
      assert Repeat(t, n) + rest == rest;
    } else {
      assert (Repeat(t, n) + rest)[1..] == Repeat(t, n - 1) + rest;
      RepeatIsAbsorbed(plan, h, t, n - 1, rest, from + 1);
      RunIndexIrrelevant(plan, h, rest, from, from + 1);
    }
  }

  /** Re-running the pipeline on a candle changes nothing: any positive number of
      deliveries of each tick gives the exit, price, R and holding count of one. */
  lemma {:induction false} StutterInvariance(plan: Plan, h: Holding, feed: seq<Tick>, reps: seq<nat>, from: nat)
    requires |feed| == |reps|
    requires forall i :: 0 <= i < |feed| ==> Rerunnable(feed[i]) && reps[i] > 0
    ensures Result(PaperRun(plan, h, Stutter(feed, reps), from)) == Result(PaperRun(plan, h, feed, from))
    decreases |feed|
  {
    if feed != [] {
      var t, n, rest := feed[0], reps[0], Stutter(feed[1..], reps[1..]);
      var (h', e) := SettleTradePlan(plan, h, t);
      assert Stutter(feed, reps) == [t] + (Repeat(t, n - 1) + rest);
      if e.None? {
        RepeatIsAbsorbed(plan, h', t, n - 1, rest, from + 1);
        StutterInvariance(plan, h', feed[1..], reps[1..], from + 1);
      }
    }
  }

  /** Number of ticks whose candle timestamp differs from the one before. */
  function DistinctCandles(lastTs: string, feed: seq<Tick>): nat
    requires forall i :: 0 <= i < |feed| ==> Rerunnable(feed[i])
    decreases |feed|
  {
    if feed == [] then 0
    else
      assert Rerunnable(feed[0]);
      var ts := feed[0].candle.value.ts.value;
      (if ts == lastTs then 0 else 1) + DistinctCandles(ts, feed[1..])
  }

  /** A position that survives a feed has counted exactly the distinct candles of it. */
  lemma {:induction false} HoldingCountsDistinctCandles(plan: Plan, h: Holding, feed: seq<Tick>, from: nat)
    requires forall i :: 0 <= i < |feed| ==> Rerunnable(feed[i])
    requires PaperRun(plan, h, feed, from).StillOpen?
    ensures PaperRun(plan, h, feed, from).h.count == h.count + DistinctCandles(h.lastTs, feed)
    decreases |feed|
  {
    if feed != [] {
      assert Rerunnable(feed[0]);
      HoldingCountsDistinctCandles(plan, SettleTradePlan(plan, h, feed[0]).0, feed[1..], from + 1);
    }
  }

  lemma DivSelf(x: real)
    requires x > 0.0
    ensures x / x == 1.0 && (-x) / x == -1.0
  {
  }

  /** Every R the kernel records is the price move over the risk, for all ticks, exactly when the plan
      carries no risk or its stop is on the losing side of the entry; a stop on the winning side books -1R
      on a gain. */
  lemma RecordedRIsPriceMove(direction: Direction, entry: real, stopLoss: real, takeProfit: real)
    ensures var plan := Plan(direction, entry, stopLoss, takeProfit, RiskOf(entry, stopLoss));
            (forall h, t ::
               var e := SettleTradePlan(plan, h, t).1;
               e.Some? ==> e.value.resultR == ResultR(plan, e.value.price))
            <==> plan.risk == 0.0 || SignedMove(direction, entry, stopLoss) < 0.0
  {
    var plan := Plan(direction, entry, stopLoss, takeProfit, RiskOf(entry, stopLoss));
    if plan.risk > 0.0 {
      DivSelf(plan.risk);
      if SignedMove(direction, entry, stopLoss) >= 0.0 {
        var t := Tick(Some(Candle(None, stopLoss, stopLoss)), None, false, 1);
        assert SettleTradePlan(plan, FRESH, t).1 == Some(Exit(StopLoss, stopLoss, -1.0));
        assert ResultR(plan, stopLoss) == 1.0;
      } else {
        assert ResultR(plan, stopLoss) == -1.0;
      }
    }
  }

  /** The candle's range reaches this price from the entry's side, on the losing or the winning side. */
  predicate Reaches(direction: Direction, c: Candle, price: real, losing: bool) {
    if (direction == LONG) == losing then c.low <= price else c.high >= price
  }

  /** Within a candle, for every plan: a level takes the position out exactly when the plan carries risk and the
      candle reaches it, the stop first. That is the worse R of the two, when both are reached, if and only if
      the target is worth at least -1R, which every target on the winning side is. */
  lemma IntrabarIsPessimistic(plan: Plan, h: Holding, t: Tick, c: Candle)
    requires t.candle == Some(c) && !(t.manual && t.lastClose.Some?)
    ensures var exit := SettleTradePlan(plan, h, t).1;
            var stopped := plan.risk > 0.0 && Reaches(plan.direction, c, plan.stopLoss, true);
            var reached := plan.risk > 0.0 && Reaches(plan.direction, c, plan.takeProfit, false);
            var targetR := ResultR(plan, plan.takeProfit);
            && (exit.Some? && exit.value.reason == StopLoss <==> stopped)
            && (exit.Some? && exit.value.reason == TakeProfit <==> reached && !stopped)
            && (stopped ==> exit.value.price == plan.stopLoss && exit.value.resultR == -1.0)
            && (reached && !stopped ==> exit.value.price == plan.takeProfit && exit.value.resultR == targetR)
            && (stopped && reached ==> (exit.value.resultR == Min(-1.0, targetR) <==> targetR >= -1.0))
    ensures plan.risk > 0.0 && SignedMove(plan.direction, plan.entry, plan.takeProfit) > 0.0 ==>
              ResultR(plan, plan.takeProfit) >= -1.0
  {
    if plan.risk > 0.0 && SignedMove(plan.direction, plan.entry, plan.takeProfit) > 0.0 {
      QuotientPositive(SignedMove(plan.direction, plan.entry, plan.takeProfit), plan.risk);
    }
  }

  /** Outside the levels: a manual exit whenever one is asked for and there is a price, and a time exit exactly when
      nothing else took the position out, there is a price, and the advanced count has reached the limit of the call.
      Both leave at the last close, with the R of the move to it. */
  lemma ManualAndTimeExits(plan: Plan, h: Holding, t: Tick)
    ensures var settled := SettleTradePlan(plan, h, t);
            var exit, manual := settled.1, t.manual && t.lastClose.Some?;
            var levels := match t.candle
                          case None => false
                          case Some(c) => plan.risk > 0.0 && (Reaches(plan.direction, c, plan.stopLoss, true) ||
                                                              Reaches(plan.direction, c, plan.takeProfit, false));
            && (exit.Some? && exit.value.reason == ManualExit <==> manual)
            && (exit.Some? && exit.value.reason == TimeExit <==>
                  !manual && !levels && t.lastClose.Some? && settled.0.count >= t.maxHold)
            && (exit.None? <==> !manual && !levels && !(t.lastClose.Some? && settled.0.count >= t.maxHold))
            && (exit.Some? && (exit.value.reason == ManualExit || exit.value.reason == TimeExit) ==>
                  && t.lastClose == Some(exit.value.price)
                  && var move := if plan.direction == LONG then exit.value.price - plan.entry else plan.entry - exit.value.price;
                     if plan.risk > 0.0 then exit.value.resultR * plan.risk == move else exit.value.resultR == 0.0)
  {
    if plan.risk > 0.0 && t.lastClose.Some? {
      DivideBack(SignedMove(plan.direction, plan.entry, t.lastClose.value), plan.risk);
    }
  }

  /** A settle call counts its candle unless it carries the timestamp counted last; a manual exit counts nothing. */
  lemma CallsCount(plan: Plan, h: Holding, t: Tick)
    ensures var h' := SettleTradePlan(plan, h, t).0;
            if t.manual && t.lastClose.Some? then h' == h
            else if t.candle.None? || t.candle.value.ts.None? then h'.count == h.count + 1 && h'.lastTs == h.lastTs
            else
              && h'.count == (if h.lastTs == t.candle.value.ts.value then h.count else h.count + 1)
              && h'.lastTs == t.candle.value.ts.value
  {
  }

  lemma QuotientPositive(a: real, b: real)
    requires a > 0.0 && b > 0.0
    ensures a / b > 0.0
  {
  }

  // ---- the kernel that keeps one open paper position ----

  /** paper_position_v2.json: the tracked position, mutated in place by settle. */
  class PaperKernel {
    var open: bool
    var plan: Plan
    var holding: Holding
    var lastSeen: Option<real>
    var outcomes: seq<Exit>

    constructor ()
      ensures !open && outcomes == []
    {
      open, outcomes := false, [];
      plan := Plan(LONG, 0.0, 0.0, 0.0, 0.0);
      holding, lastSeen := FRESH, None;
    }

    /** open_from_execution: the caller has checked that no position is open. */
    method Open(filled: bool, direction: Direction, entry: real, quantity: real, stopLoss: real, takeProfit: real)
      returns (accepted: bool)
      modifies this
      ensures accepted == (filled && entry > 0.0 && quantity > 0.0)
      ensures accepted ==> open && holding == FRESH
      ensures accepted ==> plan == Plan(direction, entry, stopLoss, takeProfit,
                                        if stopLoss > 0.0 then Max(entry - stopLoss, stopLoss - entry) else 0.0)
      ensures !accepted ==> unchanged(this)
      ensures outcomes == old(outcomes)
    {
      accepted := filled && entry > 0.0 && quantity > 0.0;
      if accepted {
        plan := Plan(direction, entry, stopLoss, takeProfit, RiskOf(entry, stopLoss));
        open, holding, lastSeen := true, FRESH, None;
      }
    }

    /** settle_open_position. */
    method Settle(t: Tick) returns (closed: Option<Exit>)
      modifies this
      ensures !old(open) ==> closed.None? && unchanged(this)
      ensures old(open) ==> closed == SettleTradePlan(old(plan), old(holding), t).1
      ensures old(open) ==> open == closed.None? && plan == old(plan)
      ensures old(open) ==> holding == SettleTradePlan(old(plan), old(holding), t).0
      ensures outcomes == old(outcomes) + if closed.Some? then [closed.value] else []
      ensures old(open) && closed.None? ==> lastSeen == t.lastClose
    {
      if !open {
        return None;
      }
      var settled := SettleTradePlan(plan, holding, t);
      holding, closed := settled.0, settled.1;
      if closed.None? {
        lastSeen := t.lastClose;
      } else {
        outcomes := outcomes + [closed.value];
        open := false;
      }
    }
  }
}
