/** The one-pass backtest engine (backtesting/execution_simulator.py). */
module Simulator {
  import opened Common
  import opened CostModel

  /** One feature row; None is a missing or non-numeric cell. */
  datatype Bar = Bar(open: Option<real>, high: Option<real>, low: Option<real>, close: Option<real>,
                     atr: Option<real>, regime: Option<string>, features: map<string, real>)

  /** `matches` is evaluate_spec: a function of one row, giving the direction when it matches. */
  datatype Setup = Setup(matches: Bar -> Option<Direction>, stopAtr: real, targetAtr: real, maxHolding: int,
                         costs: Costs, equity: real, riskPct: real)

  datatype Position = Position(entryBar: nat, side: Direction, entryIntended: real, entryFill: real,
                               stop: real, target: real, qty: real, riskAmount: real, regime: Option<string>)

  datatype Reason = TARGET | STOP | MAX_HOLDING | FORCE_CLOSE

  datatype Trade = Trade(pos: Position, exitBar: nat, reason: Reason, exitIntended: real, exitPrice: real,
                         barsHeld: int, settlement: Settlement)

  // ---- single-bar decisions ----

  predicate HitStop(side: Direction, low: Option<real>, high: Option<real>, stop: real) {
    if side == LONG then low.Some? && low.value <= stop else high.Some? && high.value >= stop
  }

  predicate HitTarget(side: Direction, low: Option<real>, high: Option<real>, target: real) {
    if side == LONG then high.Some? && high.value >= target else low.Some? && low.value <= target
  }

  /** The position a signal on bar i opens at the open of bar i + 1, if any. */
  function Signal(m: Setup, bars: seq<Bar>, i: nat): Option<Position>
    requires i + 1 < |bars|
  {
    var row, next := bars[i], bars[i + 1];
    var side := m.matches(row);
    if side.None? || row.atr.None? || row.atr.value <= 0.0 || next.open.None? || next.open.value <= 0.0 then None
    else
      var fill := FillPrice(m.costs, next.open.value, side.value, EntryLeg);
      var stop := StopPrice(fill, row.atr.value, side.value, m.stopAtr);
      var target := TargetPrice(fill, row.atr.value, side.value, m.targetAtr);
      var (qty, riskAmount) := SizePosition(m.equity, m.riskPct, fill, stop);
      if qty > 0.0 then
        Some(Position(i + 1, side.value, next.open.value, fill, stop, target, qty, riskAmount, row.regime))
      else None
  }

  /** Reason and intended price of an exit on bar j; the stop wins over the target. */
  function ExitAt(m: Setup, bars: seq<Bar>, p: Position, j: nat): Option<(Reason, real)>
    requires j < |bars|
  {
    var row := bars[j];
    if HitStop(p.side, row.low, row.high, p.stop) then Some((STOP, p.stop))
    else if HitTarget(p.side, row.low, row.high, p.target) then Some((TARGET, p.target))
    else if j - p.entryBar + 1 >= m.maxHolding && row.close.Some? then Some((MAX_HOLDING, row.close.value))
    else None
  }

  function Close(m: Setup, p: Position, exitBar: nat, reason: Reason, exit: real): Trade {
    Trade(p, exitBar, reason, exit, FillPrice(m.costs, exit, p.side, ExitLeg), exitBar - p.entryBar + 1,
          SettleTrade(p.side, p.entryIntended, exit, p.qty, p.riskAmount, m.costs))
  }

  // ---- the ledger, read recursively ----

  /** Trades from bar i on, flat at bar i. */
  function Trades(m: Setup, bars: seq<Bar>, i: nat): seq<Trade>
    decreases if i < |bars| then |bars| - i else 0, 1
  {
    if i + 1 >= |bars| then []
    else
      match Signal(m, bars, i)
      case None => Trades(m, bars, i + 1)
      case Some(p) => Hold(m, bars, p, i + 1)
  }

  /** Trades from bar j on, holding p at bar j. */
  function Hold(m: Setup, bars: seq<Bar>, p: Position, j: nat): seq<Trade>
    decreases if j < |bars| then |bars| - j else 0, 0
  {
    if j >= |bars| then Forced(m, bars, p)
    else
      match ExitAt(m, bars, p, j)
      case None => Hold(m, bars, p, j + 1)
      case Some((reason, exit)) => [Close(m, p, j, reason, exit)] + Trades(m, bars, j + 1)
  }

  /** A position open at the end is closed at the last close, or dropped when that is not numeric. */
  function Forced(m: Setup, bars: seq<Bar>, p: Position): seq<Trade> {
    if |bars| > 0 && bars[|bars| - 1].close.Some? then
      [Close(m, p, |bars| - 1, FORCE_CLOSE, bars[|bars| - 1].close.value)]
    else []
  }

  /** Positions opened from bar i on, flat at bar i. */
  function Entries(m: Setup, bars: seq<Bar>, i: nat): seq<Position>
    decreases if i < |bars| then |bars| - i else 0, 1
  {
    if i + 1 >= |bars| then []
    else
      match Signal(m, bars, i)
      case None => Entries(m, bars, i + 1)
      case Some(p) => [p] + EntriesAfter(m, bars, p, i + 1)
  }

  /** Positions opened after p, held at bar j, has been left. */
  function EntriesAfter(m: Setup, bars: seq<Bar>, p: Position, j: nat): seq<Position>
    decreases if j < |bars| then |bars| - j else 0, 0
  {
    if j >= |bars| then []
    else if ExitAt(m, bars, p, j).Some? then Entries(m, bars, j + 1)
    else EntriesAfter(m, bars, p, j + 1)
  }

  // ---- the loop ----

  /** What is still to come at bar i, in either state of the loop. */
  function Rest(m: Setup, bars: seq<Bar>, position: Option<Position>, i: nat): seq<Trade> {
    if position.Some? then Hold(m, bars, position.value, i) else Trades(m, bars, i)
  }

  function RestOfEntries(m: Setup, bars: seq<Bar>, position: Option<Position>, i: nat): seq<Position> {
    if position.Some? then EntriesAfter(m, bars, position.value, i) else Entries(m, bars, i)
  }

  /** Manage the open position on bar i: the trade that closes it there, if any. */
  method ManageBar(m: Setup, bars: seq<Bar>, p: Position, i: nat) returns (trade: Option<Trade>)
    requires p.entryBar <= i < |bars|
    ensures trade == match ExitAt(m, bars, p, i) {
                       case None => None
                       case Some((reason, exit)) => Some(Close(m, p, i, reason, exit))
                     }
  {
    var row := bars[i];
    var barsHeld := i - p.entryBar + 1;
    trade := None;
    if HitStop(p.side, row.low, row.high, p.stop) {
      trade := Some(Close(m, p, i, STOP, p.stop));
    } else if HitTarget(p.side, row.low, row.high, p.target) {
      trade := Some(Close(m, p, i, TARGET, p.target));
    } else if barsHeld >= m.maxHolding && row.close.Some? {
      trade := Some(Close(m, p, i, MAX_HOLDING, row.close.value));
    }
  }

  /** simulate_strategy. */
  method SimulateStrategy(m: Setup, bars: seq<Bar>) returns (trades: seq<Trade>, entries: nat)
    ensures trades == Trades(m, bars, 0)
    ensures entries == |Entries(m, bars, 0)|
  {
    var n := |bars|;
    trades, entries := [], 0;
    var position: Option<Position> := None;
    var i := 0;
    while i < n
      invariant 0 <= i <= n
      invariant position.Some? ==> position.value.entryBar <= i && 0 < n
      invariant trades + Rest(m, bars, position, i) == Trades(m, bars, 0)
      invariant entries + |RestOfEntries(m, bars, position, i)| == |Entries(m, bars, 0)|
    {
      if position.None? {
        if i + 1 >= n {
          break;
        }
        position := Signal(m, bars, i);
        i := i + 1;
        if position.None? {
          continue;
        }
        assert trades + Rest(m, bars, position, i) == Trades(m, bars, 0);
        assert Entries(m, bars, i - 1) == [position.value] + RestOfEntries(m, bars, position, i);
        entries := entries + 1;
      }
      var trade := ManageBar(m, bars, position.value, i);
      if trade.Some? {
        ghost var rest := Trades(m, bars, i + 1);
        assert Hold(m, bars, position.value, i) == [trade.value] + rest;
        assert trades + ([trade.value] + rest) == trades + [trade.value] + rest;
        trades := trades + [trade.value];
        position := None;
      }
      i := i + 1;
    }
    if position.Some? && bars[n - 1].close.Some? {
      trades := trades + [Close(m, position.value, n - 1, FORCE_CLOSE, bars[n - 1].close.value)];
    }
  }

  // ---- timing: the declarative reading ----

  /** Flat from bar `from` on, the next position is p: the first signal opens it. */
  predicate FirstSignal(m: Setup, bars: seq<Bar>, from: nat, p: Position) {
    && from + 1 <= p.entryBar < |bars|
    && Signal(m, bars, p.entryBar - 1) == Some(p)
    && forall i :: from <= i < p.entryBar - 1 ==> Signal(m, bars, i).None?
  }

  /** No stop, target or time exit on bars from..to-1. */
  predicate NoExit(m: Setup, bars: seq<Bar>, p: Position, from: nat, to: nat)
    requires to <= |bars|
  {
    forall j: nat :: from <= j < to ==> ExitAt(m, bars, p, j).None?
  }

  /** A trade leaves on the first bar, from its entry bar on, where an exit condition holds;
      a forced one on the last bar when none ever did. */
  predicate TimedExit(m: Setup, bars: seq<Bar>, t: Trade) {
    && t.pos.entryBar <= t.exitBar < |bars| && t.barsHeld == t.exitBar - t.pos.entryBar + 1
    && NoExit(m, bars, t.pos, t.pos.entryBar, t.exitBar)
    && t == Close(m, t.pos, t.exitBar, t.reason, t.exitIntended)
    && if t.reason == FORCE_CLOSE then
         t.exitBar == |bars| - 1 && NoExit(m, bars, t.pos, t.pos.entryBar, |bars|) &&
         bars[t.exitBar].close == Some(t.exitIntended)
       else ExitAt(m, bars, t.pos, t.exitBar) == Some((t.reason, t.exitIntended))
  }

  /** The bar at which the simulator is flat again before trade k. */
  function FlatFrom(trades: seq<Trade>, from: nat, k: nat): nat
    requires k < |trades|
  {
    if k == 0 then from else trades[k - 1].exitBar + 1
  }

  predicate TimedLedger(m: Setup, bars: seq<Bar>, trades: seq<Trade>, from: nat) {
    forall k :: 0 <= k < |trades| ==>
      && TimedExit(m, bars, trades[k])
      && FirstSignal(m, bars, FlatFrom(trades, from, k), trades[k].pos)
      && (trades[k].reason == FORCE_CLOSE ==> k == |trades| - 1)
  }

  lemma OneMoreTrade(m: Setup, bars: seq<Bar>, t: Trade, rest: seq<Trade>, from: nat)
    requires TimedExit(m, bars, t) && FirstSignal(m, bars, from, t.pos) && t.reason != FORCE_CLOSE
    requires TimedLedger(m, bars, rest, t.exitBar + 1)
    ensures TimedLedger(m, bars, [t] + rest, from)
  {
    var all := [t] + rest;
    forall k | 0 <= k < |all|
      ensures TimedExit(m, bars, all[k]) && FirstSignal(m, bars, FlatFrom(all, from, k), all[k].pos)
      ensures all[k].reason == FORCE_CLOSE ==> k == |rest|
    {
      if k > 0 {
        assert all[k] == rest[k - 1] && FlatFrom(all, from, k) == FlatFrom(rest, t.exitBar + 1, k - 1);
      }
    }
  }

  lemma {:induction false} TradesTimed(m: Setup, bars: seq<Bar>, i: nat, from: nat)
    requires from <= i <= |bars|
    requires forall k :: from <= k < i && k + 1 < |bars| ==> Signal(m, bars, k).None?
    ensures TimedLedger(m, bars, Trades(m, bars, i), from)
    decreases |bars| - i, 1
  {
    if i + 1 < |bars| {
      match Signal(m, bars, i)
      case None => TradesTimed(m, bars, i + 1, from);
      case Some(p) => HoldTimed(m, bars, p, i + 1, from);
    }
  }

  lemma {:induction false} HoldTimed(m: Setup, bars: seq<Bar>, p: Position, j: nat, from: nat)
    requires p.entryBar <= j <= |bars| && FirstSignal(m, bars, from, p) && NoExit(m, bars, p, p.entryBar, j)
    ensures TimedLedger(m, bars, Hold(m, bars, p, j), from)
    decreases |bars| - j, 0
  {
    if j < |bars| {
      match ExitAt(m, bars, p, j)
      case None => HoldTimed(m, bars, p, j + 1, from);
      case Some((reason, exit)) =>
        TradesTimed(m, bars, j + 1, j + 1);
        OneMoreTrade(m, bars, Close(m, p, j, reason, exit), Trades(m, bars, j + 1), from);
    }
  }

  /** The ledger is the declarative reading of the strategy: first signal, first exit, stop first,
      one position at a time, and at least one flat bar between an exit and the next entry. */
  lemma LedgerIsTimed(m: Setup, bars: seq<Bar>)
    ensures var trades := Trades(m, bars, 0);
            && TimedLedger(m, bars, trades, 0)
            && forall k :: 0 < k < |trades| ==> trades[k].pos.entryBar >= trades[k - 1].exitBar + 2
  {
    TradesTimed(m, bars, 0, 0);
    var trades := Trades(m, bars, 0);
    forall k | 0 < k < |trades| ensures trades[k].pos.entryBar >= trades[k - 1].exitBar + 2 {
      assert FirstSignal(m, bars, FlatFrom(trades, 0, k), trades[k].pos);
    }
  }

  predicate NumericCloses(bars: seq<Bar>) {
    forall i :: 0 <= i < |bars| ==> bars[i].close.Some?
  }

  lemma TradeHeldAtMostMax(m: Setup, bars: seq<Bar>, t: Trade)
    requires NumericCloses(bars) && TimedExit(m, bars, t)
    ensures 1 <= t.barsHeld && (t.barsHeld == 1 || t.barsHeld <= m.maxHolding)
  {
    if t.exitBar > t.pos.entryBar {
      assert ExitAt(m, bars, t.pos, t.exitBar - 1).None?;
    }
  }

  /** With numeric closes no position outlives its maximum holding time. */
  lemma HeldAtMostMax(m: Setup, bars: seq<Bar>, k: nat)
    requires NumericCloses(bars) && k < |Trades(m, bars, 0)|
    ensures var held := Trades(m, bars, 0)[k].barsHeld;
            1 <= held && (held == 1 || held <= m.maxHolding)
  {
    LedgerIsTimed(m, bars);
    TradeHeldAtMostMax(m, bars, Trades(m, bars, 0)[k]);
  }

  /** With numeric closes every position opened is closed exactly once, in order. */
  lemma {:induction false} EveryEntryIsTraded(m: Setup, bars: seq<Bar>, i: nat)
    requires NumericCloses(bars) && i <= |bars|
    ensures |Entries(m, bars, i)| == |Trades(m, bars, i)|
    ensures forall k :: 0 <= k < |Trades(m, bars, i)| ==> Trades(m, bars, i)[k].pos == Entries(m, bars, i)[k]
    decreases |bars| - i, 1
  {
    if i + 1 < |bars| {
      match Signal(m, bars, i)
      case None => EveryEntryIsTraded(m, bars, i + 1);
      case Some(p) => HeldEntryIsTraded(m, bars, p, i + 1);
    }
  }

  lemma {:induction false} HeldEntryIsTraded(m: Setup, bars: seq<Bar>, p: Position, j: nat)
    requires NumericCloses(bars) && 0 < j <= |bars|
    ensures |Hold(m, bars, p, j)| == 1 + |EntriesAfter(m, bars, p, j)|
    ensures forall k :: 0 <= k < |Hold(m, bars, p, j)| ==>
              Hold(m, bars, p, j)[k].pos == ([p] + EntriesAfter(m, bars, p, j))[k]
    decreases |bars| - j, 0
  {
    if j < |bars| {
      if ExitAt(m, bars, p, j).Some? {
        EveryEntryIsTraded(m, bars, j + 1);
      } else {
        HeldEntryIsTraded(m, bars, p, j + 1);
      }
    }
  }
}
