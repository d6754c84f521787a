/** The realized-P&L ledger and the daily-loss breaker (execution/live_pnl_ledger.py),
    and what the close protocol books into it over whole runs. */
module LiveLedger {
  import opened Common
  import opened PositionKernel
  import opened LiveClose

  /** Sum of the P&L of the rows closed on `day`. */
  function SumOn(rows: seq<Row>, day: int): real {
    if rows == [] then 0.0
    else SumOn(rows[..|rows| - 1], day) + if rows[|rows| - 1].day == day then rows[|rows| - 1].pnl else 0.0
  }

  /** live_daily_realized_pnl_usdt. */
  method LiveDailyRealizedPnl(rows: seq<Row>, day: int) returns (total: real)
    ensures total == SumOn(rows, day)
  {
    total := 0.0;
    for i := 0 to |rows|
      invariant total == SumOn(rows[..i], day)
    {
      assert rows[..i + 1][..i] == rows[..i];
      if rows[i].day == day {
        total := total + rows[i].pnl;
      }
    }
    assert rows[..|rows|] == rows;
  }

  /** The day's realized sum has reached the loss limit; an unset or non-positive limit counts as reached. */
  predicate LimitReached(limit: Option<real>, realized: real) {
    limit.None? || limit.value <= 0.0 || realized <= -limit.value
  }

  /** daily_loss_limit_breached: an unset or non-positive limit counts as breached. */
  method DailyLossLimitBreached(limit: Option<real>, rows: seq<Row>, day: int) returns (breached: bool)
    ensures breached == LimitReached(limit, SumOn(rows, day))
  {
    if limit.None? || limit.value <= 0.0 {
      return true;
    }
    var realized := LiveDailyRealizedPnl(rows, day);
    breached := realized <= -Abs(limit.value);
  }

  lemma {:induction false} SumOfConcat(a: seq<Row>, b: seq<Row>, day: int)
    ensures SumOn(a + b, day) == SumOn(a, day) + SumOn(b, day)
    decreases |b|
  {
    if b == [] {
      assert a + b == a;
    } else {
      assert (a + b)[..|a + b| - 1] == a + b[..|b| - 1];
      SumOfConcat(a, b[..|b| - 1], day);
    }
  }

  /** Only the rows closed on the day count, each once: no rows make nothing, one row makes its P&L. */
  lemma SumOfOne(r: Row, day: int)
    ensures SumOn([], day) == 0.0
    ensures SumOn([r], day) == if r.day == day then r.pnl else 0.0
  {
    assert [r][..0] == [];
  }

  // ---- the shape of one cycle ----

  /** Worlds in which the position of w is still open and nothing has been booked. */
  predicate Steady(w: World, trace: seq<World>) {
    forall i :: 0 <= i < |trace| ==> trace[i].ledger == w.ledger && trace[i].terms == w.terms &&
                                     trace[i].pos.Some? && w.pos.Some? && trace[i].pos.value.id == w.pos.value.id
  }

  /** A cycle that closes ends with two effects: the row is appended, then the position is
      cleared. Every other effect, and every cycle that does not close, books nothing. */
  predicate Shaped(w: World, e: Effects) {
    if e.outcome.Closed? then
      var n := |e.trace|;
      && n >= 2 && w.pos.Some? && e.outcome.row.positionId == w.pos.value.id
      && Steady(w, e.trace[..n - 2])
      && e.trace[n - 2].ledger == w.ledger + [e.outcome.row] && e.trace[n - 2].terms == w.terms
      && e.trace[n - 2].pos.Some? && e.trace[n - 2].pos.value.id == w.pos.value.id
      && e.trace[n - 1] == e.trace[n - 2].(pos := None)
    else
      Steady(w, e.trace)
  }

  lemma SteadyThenShaped(w: World, a: seq<World>, e: Effects)
    requires Steady(w, a) && Shaped(Last(w, a), e)
    ensures Shaped(w, Effects(a + e.trace, e.outcome))
  {
  }

  lemma FillShaped(w: World, p: Position, id: Id, fill: Order, day: int)
    requires w.pos.Some? && w.pos.value.id == p.id
    ensures Shaped(w, SettleFromFill(w, p, id, fill, day))
  {
  }

  lemma ReadBackShaped(w: World, p: Position, id: Id, x: CycleInput)
    requires w.pos == Some(p)
    ensures Shaped(w, ReadBack(w, p, id, x))
  {
    var (w1, a) := Ask(w, id, x.readBack);
    if IsFill(a) {
      FillShaped(w1, p, id, a.order.value, x.day);
      SteadyThenShaped(w, [w1], SettleFromFill(w1, p, id, a.order.value, x.day));
    }
  }

  lemma SubmitSteady(w: World, ahead: World, id: Id, p: Position, x: CycleInput)
    requires w.pos.Some? && Steady(w, [ahead]) && ahead.pos == Some(p)
    ensures var sent := SubmitClose(ahead, id, p, x).0;
            Steady(w, [ahead] + sent) && Last(w, [ahead] + sent) == Last(ahead, sent) && Last(ahead, sent).pos == Some(p)
  {
    var sent := SubmitClose(ahead, id, p, x).0;
    forall i | 0 <= i < |sent| ensures Steady(w, [sent[i]]) && sent[i].pos == Some(p) {
      assert Steady(w, [ahead]) && [ahead][0] == ahead;
    }
    forall i | 0 <= i < |[ahead] + sent| ensures Steady(w, [([ahead] + sent)[i]]) {
    }
    assert forall i :: 0 <= i < |[ahead] + sent| ==> [([ahead] + sent)[i]][0] == ([ahead] + sent)[i];
  }

  /** What ends a fresh close: a read-back that books or keeps, or the retreat. */
  lemma TailShaped(w1: World, p: Position, p': Position, id: Id, performed: bool, tail: Effects, x: CycleInput)
    requires w1.pos == Some(p') && p'.id == p.id
    requires tail == if performed then ReadBack(w1, p', id, x) else Effects([Save(w1, p)], CloseFailed)
    ensures Shaped(w1, tail)
  {
    if performed {
      ReadBackShaped(w1, p', id, x);
    }
  }

  lemma FreshShaped(w: World, p: Position, reason: Reason, x: CycleInput)
    requires w.pos.Some? && w.pos.value.id == p.id
    ensures Shaped(w, FreshClose(w, p, reason, x))
  {
    var p', ahead, sent, performed, w1, tail := FreshCloseParts(w, p, reason, x);
    SubmitSteady(w, ahead, w.clock, p', x);
    TailShaped(w1, p, p', w.clock, performed, tail, x);
    SteadyThenShaped(w, [ahead] + sent, tail);
  }

  lemma DecideShaped(w: World, p: Position, x: CycleInput)
    requires w.pos == Some(p)
    ensures Shaped(w, Decide(w, p, x))
  {
    var signal := ExitSignal(p.plan, p.holding, x.tick);
    if signal.1.Some? {
      FreshShaped(w, p.(holding := signal.0), signal.1.value, x);
    }
  }

  lemma ResolvedFillShaped(w: World, w1: World, p: Position, id: Id, fill: Order, day: int)
    requires w.pos == Some(p) && w1.pos == w.pos && w1.ledger == w.ledger && w1.terms == w.terms
    ensures var settled := SettleFromFill(w1, p, id, fill, day);
            Shaped(w, Effects([w1] + settled.trace, settled.outcome))
  {
    var settled := SettleFromFill(w1, p, id, fill, day);
    FillShaped(w1, p, id, fill, day);
    SteadyThenShaped(w, [w1], settled);
  }

  lemma PairSteady(w: World, a: World, b: World)
    requires Steady(w, [a]) && Steady(w, [b])
    ensures Steady(w, [a, b])
  {
    assert [a][0] == a && [b][0] == b;
  }

  lemma AskedSteady(w: World, id: Id, talk: Talk)
    requires w.pos.Some?
    ensures var w1 := Ask(w, id, talk).0;
            Steady(w, [w1]) && w1.pos == w.pos && forall p: Position :: p.id == w.pos.value.id ==> Steady(w, [Save(w1, p)])
  {
  }

  lemma ResolveShaped(w: World, x: CycleInput)
    requires w.pos.Some?
    ensures var parts := ResolvePending(w, w.pos.value, x);
            Shaped(w, parts.0) && (parts.1.Some? ==> Steady(w, parts.0.trace) && Last(w, parts.0.trace).pos == parts.1)
  {
    var p := w.pos.value;
    if p.pending.Some? {
      var asked := Ask(w, p.pending.value.id, x.pendingTalk);
      var w1, a := asked.0, asked.1;
      AskedSteady(w, p.pending.value.id, x.pendingTalk);
      if IsFill(a) {
        ResolvedFillShaped(w, w1, p, p.pending.value.id, a.order.value, x.day);
      } else if IsDead(a) {
        PairSteady(w, w1, Save(w1, p.(pending := None)));
      } else {
        PairSteady(w, w1, Save(w1, p));
      }
    }
  }

  lemma CycleShaped(w: World, x: CycleInput)
    ensures w.pos.Some? ==> Shaped(w, SettleCycle(w, x))
    ensures w.pos.None? ==> SettleCycle(w, x) == Effects([], NothingToDo)
  {
    if w.pos.Some? {
      var resolved, live, w1, decided := CycleParts(w, x);
      ResolveShaped(w, x);
      if live.Some? {
        DecideShaped(w1, live.value, x);
        SteadyThenShaped(w, resolved.trace, decided);
      }
    }
  }

  // ---- what a step books ----

  predicate Clears(w: World, e: Event) {
    w.pos.Some? && Step(w, e).pos.None?
  }

  /** A crash between the ledger append and the clearing of the position. */
  predicate Strands(w: World, e: Event) {
    e.Settles? &&
    var cycle := SettleCycle(w, e.input);
    cycle.outcome.Closed? && e.cut == |cycle.trace| - 1
  }

  /** The row of the close a step was carrying out. */
  function ClosingRows(w: World, e: Event): seq<Row> {
    if e.Settles? && SettleCycle(w, e.input).outcome.Closed? then [SettleCycle(w, e.input).outcome.row] else []
  }

  /** A shaped cycle cut after `cut` effects. */
  lemma CutShaped(w: World, cycle: Effects, cut: nat)
    requires Shaped(w, cycle) && w.pos.Some?
    ensures var n := |cycle.trace|;
            var w' := Cut(w, cycle.trace, cut);
            && w'.terms == w.terms
            && w'.ledger == w.ledger + (if cycle.outcome.Closed? && cut >= n - 1 then [cycle.outcome.row] else [])
            && (w'.pos.None? <==> cycle.outcome.Closed? && cut >= n)
            && (w'.pos.Some? ==> w'.pos.value.id == w.pos.value.id)
  {
  }

  /** A step books exactly one row when it clears the position or strands a row, and none otherwise. */
  lemma StepBooks(w: World, e: Event)
    ensures Step(w, e).ledger == w.ledger + if Clears(w, e) || Strands(w, e) then ClosingRows(w, e) else []
    ensures Clears(w, e) || Strands(w, e) ==>
              |ClosingRows(w, e)| == 1 && w.pos.Some? && ClosingRows(w, e)[0].positionId == w.pos.value.id
    ensures !(Clears(w, e) && Strands(w, e))
    ensures w.pos.Some? && !Clears(w, e) ==> Step(w, e).pos.Some? && Step(w, e).pos.value.id == w.pos.value.id
    ensures e.Settles? ==> Step(w, e).terms == w.terms && (w.pos.None? ==> Step(w, e) == w)
  {
    if e.Settles? {
      CycleShaped(w, e.input);
      if w.pos.Some? {
        CutShaped(w, SettleCycle(w, e.input), e.cut);
      }
    }
  }

  /** The rows of the positions a run settles, one per clearing. */
  function SettledRows(w: World, events: seq<Event>): seq<Row>
    decreases |events|
  {
    if events == [] then []
    else (if Clears(w, events[0]) then ClosingRows(w, events[0]) else []) + SettledRows(Step(w, events[0]), events[1..])
  }

  /** The row a step leaves behind without settling its position. */
  function Stranded(w: World, e: Event): seq<Row> {
    if Strands(w, e) then ClosingRows(w, e) else []
  }

  /** The rows a run books without clearing the position: one per crash in the gap. */
  function StrandedRows(w: World, events: seq<Event>): seq<Row>
    decreases |events|
  {
    if events == [] then []
    else Stranded(w, events[0]) + StrandedRows(Step(w, events[0]), events[1..])
  }

  /** What the loss breaker reads is the P&L of the settled fills, plus that of every row
      stranded by a crash between append and clear, and nothing else, on every day. */
  lemma {:induction false} DailySumIsSettledPlusStranded(w: World, events: seq<Event>, day: int)
    ensures SumOn(Run(w, events).ledger, day) ==
            SumOn(w.ledger, day) + SumOn(SettledRows(w, events), day) + SumOn(StrandedRows(w, events), day)
    decreases |events|
  {
    if events != [] {
      var e, w' := events[0], Step(w, events[0]);
      StepBooks(w, e);
      var cleared := if Clears(w, e) then ClosingRows(w, e) else [];
      var stranded := Stranded(w, e);
      SumOfConcat(w.ledger, cleared, day);
      SumOfConcat(w.ledger, stranded, day);
      SumOfConcat(cleared, SettledRows(w', events[1..]), day);
      SumOfConcat(stranded, StrandedRows(w', events[1..]), day);
      DailySumIsSettledPlusStranded(w', events[1..], day);
      assert w.ledger + [] == w.ledger;
    }
  }

  /** Rows the ledger holds for a position. */
  function RowsFor(rows: seq<Row>, positionId: Id): nat {
    if rows == [] then 0
    else RowsFor(rows[..|rows| - 1], positionId) + if rows[|rows| - 1].positionId == positionId then 1 else 0
  }

  /** 1 for a position that was opened and is closed, 0 for any other id. */
  function Settled(w: World, positionId: Id): nat {
    if positionId in w.terms && !IsOpen(w, positionId) then 1 else 0
  }

  /** One row per settled position, none for an open one and none for an unknown one. */
  ghost predicate OneRowEach(w: World) {
    forall id :: RowsFor(w.ledger, id) == Settled(w, id)
  }

  lemma {:induction false} RowsForConcat(a: seq<Row>, b: seq<Row>, id: Id)
    ensures RowsFor(a + b, id) == RowsFor(a, id) + RowsFor(b, id)
    decreases |b|
  {
    if b == [] {
      assert a + b == a;
    } else {
      assert (a + b)[..|a + b| - 1] == a + b[..|b| - 1];
      RowsForConcat(a, b[..|b| - 1], id);
    }
  }

  lemma OneRow(r: Row, id: Id)
    ensures RowsFor([r], id) == if r.positionId == id then 1 else 0
  {
    assert [r][..0] == [];
  }

  /** What a step adds to the settled positions: the one it clears. */
  lemma StepSettles(w: World, e: Event, id: Id)
    requires w.pos.Some? ==> w.pos.value.id in w.terms
    requires forall i :: i in w.terms ==> i < w.clock
    ensures Settled(Step(w, e), id) == Settled(w, id) + if Clears(w, e) && w.pos.value.id == id then 1 else 0
  {
    StepBooks(w, e);
  }

  /** What a step adds to the rows of a position is what it settles plus what it strands. */
  lemma StepConservesRows(w: World, e: Event, id: Id)
    requires w.pos.Some? ==> w.pos.value.id in w.terms
    requires forall i :: i in w.terms ==> i < w.clock
    ensures RowsFor(Step(w, e).ledger, id) + Settled(w, id) ==
            RowsFor(w.ledger, id) + Settled(Step(w, e), id) + RowsFor(Stranded(w, e), id)
  {
    StepBooks(w, e);
    StepSettles(w, e, id);
    if Clears(w, e) || Strands(w, e) {
      var r := ClosingRows(w, e)[0];
      assert ClosingRows(w, e) == [r];
      RowsForConcat(w.ledger, [r], id);
      OneRow(r, id);
    } else {
      assert w.ledger + [] == w.ledger;
    }
  }
}

/** Exactly-once booking, proved with the protocol invariant. */
module LiveLedgerRuns {
  import opened LiveClose
  import opened LiveCloseSafety
  import opened LiveLedger

  /** Over any run, a position gains a row for its settlement and one for each row stranded of it. */
  lemma {:induction false} RunConservesRows(w: World, events: seq<Event>, id: Id)
    requires Inv(w)
    ensures RowsFor(Run(w, events).ledger, id) + Settled(w, id) ==
            RowsFor(w.ledger, id) + Settled(Run(w, events), id) + RowsFor(StrandedRows(w, events), id)
    decreases |events|
  {
    if events != [] {
      var w' := Step(w, events[0]);
      StepConservesRows(w, events[0], id);
      StepKeeps(w, events[0]);
      RunConservesRows(w', events[1..], id);
      RowsForConcat(Stranded(w, events[0]), StrandedRows(w', events[1..]), id);
    }
  }

  /** Every settled position has exactly one ledger row and an open one has none, if and
      only if no crash of the run fell between an append and its clear. */
  lemma ExactlyOneRowPerSettlement(events: seq<Event>)
    ensures OneRowEach(Run(START, events)) <==> StrandedRows(START, events) == []
  {
    var w, stranded := Run(START, events), StrandedRows(START, events);
    forall id ensures RowsFor(w.ledger, id) == Settled(w, id) + RowsFor(stranded, id) {
      RunConservesRows(START, events, id);
    }
    if stranded != [] {
      var last := stranded[|stranded| - 1];
      assert RowsFor(stranded, last.positionId) > 0;
      assert RowsFor(w.ledger, last.positionId) != Settled(w, last.positionId);
    }
  }

  /** Without such a crash the loss breaker reads exactly the P&L of the settled fills. */
  lemma DailySumIsSettled(events: seq<Event>, day: int)
    requires OneRowEach(Run(START, events))
    ensures SumOn(Run(START, events).ledger, day) == SumOn(SettledRows(START, events), day)
  {
    ExactlyOneRowPerSettlement(events);
    DailySumIsSettledPlusStranded(START, events, day);
  }
}
