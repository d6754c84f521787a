/** The simulator's ledger is the only one that reads the strategy declaratively: nothing is missed
    and nothing could have been different. */
module SimulatorRefinement {
  import opened Simulator

  /** The bar from which the simulator is flat after all these trades. */
  function FlatAfter(trades: seq<Trade>, from: nat): nat {
    if trades == [] then from else trades[|trades| - 1].exitBar + 1
  }

  predicate NoSignal(m: Setup, bars: seq<Bar>, from: nat) {
    forall i :: from <= i && i + 1 < |bars| ==> Signal(m, bars, i).None?
  }

  /** A position that is never left and cannot be closed at the end: the source drops it. */
  predicate Dropped(m: Setup, bars: seq<Bar>, from: nat, p: Position) {
    FirstSignal(m, bars, from, p) && NoExit(m, bars, p, p.entryBar, |bars|) && bars[|bars| - 1].close.None?
  }

  /** After these trades there is no further position to trade: the last was closed at the end of the
      frame, or no signal is left, or the next position is dropped. */
  ghost predicate NothingMissed(m: Setup, bars: seq<Bar>, trades: seq<Trade>, from: nat) {
    || (trades != [] && trades[|trades| - 1].reason == FORCE_CLOSE)
    || NoSignal(m, bars, FlatAfter(trades, from))
    || exists p :: Dropped(m, bars, FlatAfter(trades, from), p)
  }

  // ---- the simulator misses nothing ----

  lemma PrependMissesNothing(m: Setup, bars: seq<Bar>, t: Trade, rest: seq<Trade>, from: nat)
    requires NothingMissed(m, bars, rest, t.exitBar + 1)
    ensures NothingMissed(m, bars, [t] + rest, from)
  {
    assert FlatAfter([t] + rest, from) == FlatAfter(rest, t.exitBar + 1);
    assert rest != [] ==> ([t] + rest)[|rest|] == rest[|rest| - 1];
  }

  lemma {:induction false} TradesMissNothing(m: Setup, bars: seq<Bar>, i: nat, from: nat)
    requires from <= i <= |bars|
    requires forall k :: from <= k < i && k + 1 < |bars| ==> Signal(m, bars, k).None?
    ensures NothingMissed(m, bars, Trades(m, bars, i), from)
    decreases |bars| - i, 1
  {
    if i + 1 < |bars| {
      match Signal(m, bars, i)
      case None => TradesMissNothing(m, bars, i + 1, from);
      case Some(p) => HoldMissesNothing(m, bars, p, i + 1, from);
    }
  }

  lemma {:induction false} HoldMissesNothing(m: Setup, bars: seq<Bar>, p: Position, j: nat, from: nat)
    requires p.entryBar <= j <= |bars| && FirstSignal(m, bars, from, p) && NoExit(m, bars, p, p.entryBar, j)
    ensures NothingMissed(m, bars, Hold(m, bars, p, j), from)
    decreases |bars| - j, 0
  {
    if j >= |bars| {
      assert bars[|bars| - 1].close.None? ==> Dropped(m, bars, from, p);
    } else {
      match ExitAt(m, bars, p, j)
      case None => HoldMissesNothing(m, bars, p, j + 1, from);
      case Some((reason, exit)) =>
        TradesMissNothing(m, bars, j + 1, j + 1);
        PrependMissesNothing(m, bars, Close(m, p, j, reason, exit), Trades(m, bars, j + 1), from);
    }
  }

  // ---- and is determined by it ----

  lemma {:induction false} QuietUntilSignal(m: Setup, bars: seq<Bar>, from: nat, p: Position)
    requires FirstSignal(m, bars, from, p)
    ensures Trades(m, bars, from) == Hold(m, bars, p, p.entryBar)
    decreases |bars| - from
  {
    if from + 1 < p.entryBar {
      QuietUntilSignal(m, bars, from + 1, p);
    }
  }

  lemma {:induction false} HeldUntil(m: Setup, bars: seq<Bar>, p: Position, j: nat, to: nat)
    requires j <= to <= |bars| && NoExit(m, bars, p, j, to)
    ensures Hold(m, bars, p, j) == Hold(m, bars, p, to)
    decreases |bars| - j
  {
    if j < to {
      HeldUntil(m, bars, p, j + 1, to);
    }
  }

  lemma {:induction false} NoSignalNoTrades(m: Setup, bars: seq<Bar>, from: nat)
    requires NoSignal(m, bars, from)
    ensures Trades(m, bars, from) == []
    decreases if from < |bars| then |bars| - from else 0
  {
    if from + 1 < |bars| {
      NoSignalNoTrades(m, bars, from + 1);
    }
  }

  lemma NothingLeft(m: Setup, bars: seq<Bar>, from: nat)
    requires NothingMissed(m, bars, [], from)
    ensures Trades(m, bars, from) == []
  {
    if NoSignal(m, bars, from) {
      NoSignalNoTrades(m, bars, from);
    } else {
      var p :| Dropped(m, bars, from, p);
      QuietUntilSignal(m, bars, from, p);
      HeldUntil(m, bars, p, p.entryBar, |bars|);
    }
  }

  /** The first trade of a declarative ledger is the first the simulator makes. */
  lemma FirstTrade(m: Setup, bars: seq<Bar>, t: Trade, from: nat)
    requires FirstSignal(m, bars, from, t.pos) && TimedExit(m, bars, t)
    ensures Trades(m, bars, from) == [t] + if t.reason == FORCE_CLOSE then [] else Trades(m, bars, t.exitBar + 1)
  {
    QuietUntilSignal(m, bars, from, t.pos);
    if t.reason == FORCE_CLOSE {
      HeldUntil(m, bars, t.pos, t.pos.entryBar, |bars|);
    } else {
      HeldUntil(m, bars, t.pos, t.pos.entryBar, t.exitBar);
    }
  }

  lemma TailIsTimed(m: Setup, bars: seq<Bar>, trades: seq<Trade>, from: nat)
    requires trades != [] && TimedLedger(m, bars, trades, from) && trades[0].reason != FORCE_CLOSE
    ensures TimedLedger(m, bars, trades[1..], trades[0].exitBar + 1)
  {
    var rest := trades[1..];
    forall k | 0 <= k < |rest|
      ensures TimedExit(m, bars, rest[k]) && FirstSignal(m, bars, FlatFrom(rest, trades[0].exitBar + 1, k), rest[k].pos)
      ensures rest[k].reason == FORCE_CLOSE ==> k == |rest| - 1
    {
      assert rest[k] == trades[k + 1];
      assert FlatFrom(trades, from, k + 1) == FlatFrom(rest, trades[0].exitBar + 1, k);
    }
  }

  lemma TailMissesNothing(m: Setup, bars: seq<Bar>, trades: seq<Trade>, from: nat)
    requires trades != [] && NothingMissed(m, bars, trades, from) && trades[0].reason != FORCE_CLOSE
    ensures NothingMissed(m, bars, trades[1..], trades[0].exitBar + 1)
  {
    assert FlatAfter(trades, from) == FlatAfter(trades[1..], trades[0].exitBar + 1);
  }

  lemma HeadTrade(m: Setup, bars: seq<Bar>, trades: seq<Trade>, from: nat) returns (t: Trade, next: nat)
    requires trades != [] && TimedLedger(m, bars, trades, from)
    ensures t == trades[0] && next == t.exitBar + 1
    ensures t.reason == FORCE_CLOSE ==> trades == [t] && Trades(m, bars, from) == [t]
    ensures t.reason != FORCE_CLOSE ==> Trades(m, bars, from) == [t] + Trades(m, bars, next)
  {
    t, next := trades[0], trades[0].exitBar + 1;
    assert TimedExit(m, bars, t) && FirstSignal(m, bars, FlatFrom(trades, from, 0), t.pos);
    FirstTrade(m, bars, t, from);
    assert [t] + [] == [t];
  }

  lemma HeadAndTail(trades: seq<Trade>)
    requires trades != []
    ensures trades == [trades[0]] + trades[1..]
  {
  }

  lemma {:induction false} OnlyOneLedger(m: Setup, bars: seq<Bar>, trades: seq<Trade>, from: nat)
    returns (made: seq<Trade>)
    requires TimedLedger(m, bars, trades, from) && NothingMissed(m, bars, trades, from)
    ensures made == Trades(m, bars, from) && trades == made
    decreases |trades|
  {
    if trades == [] {
      made := [];
      NothingLeft(m, bars, from);
    } else {
      var t, next := HeadTrade(m, bars, trades, from);
      if t.reason == FORCE_CLOSE {
        made := [t];
      } else {
        TailIsTimed(m, bars, trades, from);
        TailMissesNothing(m, bars, trades, from);
        var rest := OnlyOneLedger(m, bars, trades[1..], next);
        made := [t] + rest;
        HeadAndTail(trades);
      }
    }
  }

  /** Refinement, both ways: a ledger is the simulator's if and only if each trade enters on the first signal
      once flat and leaves on the first bar that says so, stop first, and no position is missed. */
  lemma SimulatorIsTheDeclarativeReading(m: Setup, bars: seq<Bar>, trades: seq<Trade>)
    ensures trades == Trades(m, bars, 0) <==> TimedLedger(m, bars, trades, 0) && NothingMissed(m, bars, trades, 0)
  {
    LedgerIsTimed(m, bars);
    TradesMissNothing(m, bars, 0, 0);
    if TimedLedger(m, bars, trades, 0) && NothingMissed(m, bars, trades, 0) {
      var made := OnlyOneLedger(m, bars, trades, 0);
    }
  }
}
