/** A shadow result means what a paper result means: a blocked plan leaves the shadow book with the exit,
    and on the candle, that a paper position on the same plan would have had. */
module ShadowFidelity {
  import opened Common
  import opened PositionKernel
  import opened ShadowBook

  /** The open shadow position with this id. */
  function RowWith(rows: seq<Shadow>, id: string): Option<Shadow> {
    if rows == [] then None
    else if rows[|rows| - 1].setup.id == id then Some(rows[|rows| - 1])
    else RowWith(rows[..|rows| - 1], id)
  }

  /** The outcomes recorded for this id. */
  function OutcomesOf(outcomes: seq<Outcome>, id: string): seq<Outcome> {
    if outcomes == [] then []
    else
      OutcomesOf(outcomes[..|outcomes| - 1], id) +
      if outcomes[|outcomes| - 1].setup.id == id then [outcomes[|outcomes| - 1]] else []
  }

  lemma {:induction false} NoRowUnlessHeld(rows: seq<Shadow>, id: string)
    ensures RowWith(rows, id).Some? <==> Holds(rows, id)
  {
    if rows != [] {
      var init := rows[..|rows| - 1];
      NoRowUnlessHeld(init, id);
      if Holds(init, id) {
        var i :| 0 <= i < |init| && init[i].setup.id == id;
        assert rows[i].setup.id == id;
      }
      if Holds(rows, id) && rows[|rows| - 1].setup.id != id {
        var i :| 0 <= i < |rows| && rows[i].setup.id == id;
        assert init[i].setup.id == id;
      }
    }
  }

  lemma RowSnoc(rows: seq<Shadow>, s: Shadow, id: string)
    ensures RowWith(rows + [s], id) == if s.setup.id == id then Some(s) else RowWith(rows, id)
  {
    assert (rows + [s])[..|rows|] == rows;
  }

  lemma OutcomesSnoc(outcomes: seq<Outcome>, o: Outcome, id: string)
    ensures OutcomesOf(outcomes + [o], id) == OutcomesOf(outcomes, id) + if o.setup.id == id then [o] else []
  {
    assert (outcomes + [o])[..|outcomes|] == outcomes;
  }

  lemma {:induction false} OthersUntouched(rows: seq<Shadow>, t: Tick, settle: Settler, id: string)
    requires !Holds(rows, id)
    ensures RowWith(Remaining(rows, t, settle), id).None? && OutcomesOf(SettledBy(rows, t, settle), id) == []
  {
    if rows != [] {
      var init, last := rows[..|rows| - 1], rows[|rows| - 1];
      assert forall i :: 0 <= i < |init| ==> init[i] == rows[i];
      OthersUntouched(init, t, settle, id);
      OneRowSettled(init, last, t, settle, id);
    }
  }

  /** Settling one more row adds it to the remaining rows or to the outcomes, under its own id. */
  lemma OneRowSettled(init: seq<Shadow>, last: Shadow, t: Tick, settle: Settler, id: string)
    ensures var (h, e) := settle(last);
            var rows := init + [last];
            && RowWith(Remaining(rows, t, settle), id) ==
               (if e.None? && last.setup.id == id then Some(last.(holding := h, lastSeen := t.lastClose))
                else RowWith(Remaining(init, t, settle), id))
            && OutcomesOf(SettledBy(rows, t, settle), id) ==
               OutcomesOf(SettledBy(init, t, settle), id) +
               (if e.Some? && last.setup.id == id
                then [Outcome(last.setup, e.value, Classify(e.value.resultR), h.count)] else [])
  {
    var (h, e) := settle(last);
    assert (init + [last])[..|init|] == init;
    var kept, done := Remaining(init, t, settle), SettledBy(init, t, settle);
    if e.None? {
      RowSnoc(kept, last.(holding := h, lastSeen := t.lastClose), id);
      assert SettledBy(init + [last], t, settle) == done;
    } else {
      OutcomesSnoc(done, Outcome(last.setup, e.value, Classify(e.value.resultR), h.count), id);
      assert Remaining(init + [last], t, settle) == kept;
    }
  }

  /** One candle moves the row with this id on, or turns it into its outcome. */
  lemma {:induction false} RowSettled(rows: seq<Shadow>, t: Tick, settle: Settler, s: Shadow)
    requires DistinctIds(rows) && RowWith(rows, s.setup.id) == Some(s)
    ensures var (h, e) := settle(s);
            if e.None? then
              RowWith(Remaining(rows, t, settle), s.setup.id) == Some(s.(holding := h, lastSeen := t.lastClose)) &&
              OutcomesOf(SettledBy(rows, t, settle), s.setup.id) == []
            else
              OutcomesOf(SettledBy(rows, t, settle), s.setup.id) ==
              [Outcome(s.setup, e.value, Classify(e.value.resultR), h.count)]
  {
    var init, last := rows[..|rows| - 1], rows[|rows| - 1];
    assert rows == init + [last];
    OneRowSettled(init, last, t, settle, s.setup.id);
    if last.setup.id == s.setup.id {
      assert !Holds(init, s.setup.id);
      OthersUntouched(init, t, settle, s.setup.id);
      assert s == last;
      var (h, e) := settle(s);
      if e.Some? {
        var o := Outcome(s.setup, e.value, Classify(e.value.resultR), h.count);
        assert [] + [o] == [o];
      }
    } else {
      RowSettled(init, t, settle, s);
    }
  }

  lemma {:induction false} OutcomesConcat(a: seq<Outcome>, b: seq<Outcome>, id: string)
    ensures OutcomesOf(a + b, id) == OutcomesOf(a, id) + OutcomesOf(b, id)
  {
    if b == [] {
      assert a + b == a;
    } else {
      var init, last := b[..|b| - 1], b[|b| - 1];
      OutcomesConcat(a, init, id);
      OutcomesSnoc(a + init, last, id);
      assert a + b == (a + init) + [last];
    }
  }

  // ---- runs, with crashes ----

  /** The outcomes an event appends. */
  function Appended(book: Book, e: Event, maxHold: string -> int): seq<Outcome> {
    if e.RecordEvent? then []
    else
      var outcomes := SettledBy(book.open, e.tick, SettlerFor(e.tick, maxHold));
      if e.cut <= |outcomes| then outcomes[..e.cut] else outcomes
  }

  /** A settle call that ran to its end and saved the book. */
  predicate Completes(book: Book, e: Event, maxHold: string -> int) {
    e.SettleEvent? && e.cut > |SettledBy(book.open, e.tick, SettlerFor(e.tick, maxHold))|
  }

  function RunOn(book: Book, events: seq<Event>, maxHold: string -> int): Book
    decreases |events|
  {
    if events == [] then book else RunOn(Step(book, events[0], maxHold), events[1..], maxHold)
  }

  /** The outcomes a run records for one id, in order. */
  function OutcomesOver(book: Book, events: seq<Event>, maxHold: string -> int, id: string): seq<Outcome>
    decreases |events|
  {
    if events == [] then []
    else
      OutcomesOf(Appended(book, events[0], maxHold), id) +
      OutcomesOver(Step(book, events[0], maxHold), events[1..], maxHold, id)
  }

  /** The candles that reached a shadow position: those whose settle call saved the book, and those whose call
      appended its outcome before it crashed. A call that crashed earlier left no trace of its candle. */
  function Seen(book: Book, events: seq<Event>, maxHold: string -> int, s: Setup): seq<Tick>
    decreases |events|
  {
    if events == [] then []
    else
      var e := events[0];
      (if Completes(book, e, maxHold) || OutcomesOf(Appended(book, e, maxHold), s.id) != []
       then [AsShadow(e.tick, maxHold(s.timeframe))] else []) +
      Seen(Step(book, e, maxHold), events[1..], maxHold, s)
  }

  lemma RecordingLeavesRow(book: Book, b: Blocked, s: Shadow)
    requires RowWith(book.open, s.setup.id) == Some(s)
    ensures RowWith(Record(book, b).open, s.setup.id) == Some(s)
  {
    if Recordable(book.open, b) {
      NoRowUnlessHeld(book.open, s.setup.id);
      RowSnoc(book.open, Shadow(BuildPlan(b).value, FRESH, None), s.setup.id);
    }
  }

  /** One event, as the row with this id lives it: it is settled, or it moves on by this candle, or nothing happens to it. */
  lemma RowStep(book: Book, e: Event, maxHold: string -> int, s: Shadow)
    requires WellFormed(book) && RowWith(book.open, s.setup.id) == Some(s)
    ensures var appended := OutcomesOf(Appended(book, e, maxHold), s.setup.id);
            var row := RowWith(Step(book, e, maxHold).open, s.setup.id);
            if Completes(book, e, maxHold) || appended != [] then
              var (h, x) := SettlerFor(e.tick, maxHold)(s);
              if x.Some? then appended == [Outcome(s.setup, x.value, Classify(x.value.resultR), h.count)]
              else appended == [] && row == Some(s.(holding := h, lastSeen := e.tick.lastClose))
            else
              row == Some(s)
  {
    if e.RecordEvent? {
      RecordingLeavesRow(book, e.blocked, s);
    } else {
      var outcomes := SettledBy(book.open, e.tick, SettlerFor(e.tick, maxHold));
      RowSettled(book.open, e.tick, SettlerFor(e.tick, maxHold), s);
      if e.cut <= |outcomes| {
        OutcomesConcat(outcomes[..e.cut], outcomes[e.cut..], s.setup.id);
        assert outcomes[..e.cut] + outcomes[e.cut..] == outcomes;
      }
    }
  }

  /** What a paper run of a plan says is what its shadow position did: the same exit is its first outcome,
      or it has none and is open with the same holding state. */
  predicate Matches(paper: Ending, setup: Setup, outcomes: seq<Outcome>, row: Option<Shadow>) {
    match paper
    case Exited(h, exit, _) => outcomes != [] && outcomes[0] == Outcome(setup, exit, Classify(exit.resultR), h.count)
    case StillOpen(h) => outcomes == [] && row.Some? && row.value.holding == h && row.value.setup == setup
  }

  /** A candle that settles the position ends both runs alike. */
  lemma ExitMatches(s: Shadow, t: Tick, rest: seq<Tick>, from: nat, more: seq<Outcome>, row: Option<Shadow>)
    requires SettleTradePlan(s.setup.plan, s.holding, t).1.Some?
    ensures var (h, x) := SettleTradePlan(s.setup.plan, s.holding, t);
            Matches(PaperRun(s.setup.plan, s.holding, [t] + rest, from), s.setup,
                    [Outcome(s.setup, x.value, Classify(x.value.resultR), h.count)] + more, row)
  {
  }

  /** Over any continuation of the run, crashes included, the first outcome of a shadow position is exactly when,
      where and why the paper kernel would have left a position on its plan over the candles that reached it; or it
      has none and is still open with the paper kernel's holding state. */
  lemma {:induction false} ShadowExitsLikePaper(book: Book, events: seq<Event>, maxHold: string -> int, s: Shadow, from: nat)
    requires WellFormed(book) && RowWith(book.open, s.setup.id) == Some(s)
    ensures Matches(PaperRun(s.setup.plan, s.holding, Seen(book, events, maxHold, s.setup), from), s.setup,
                    OutcomesOver(book, events, maxHold, s.setup.id), RowWith(RunOn(book, events, maxHold).open, s.setup.id))
    decreases |events|
  {
    if events != [] {
      var e, next := events[0], Step(book, events[0], maxHold);
      StepConserves(book, e, maxHold);
      RowStep(book, e, maxHold, s);
      var appended, rest := OutcomesOf(Appended(book, e, maxHold), s.setup.id), Seen(next, events[1..], maxHold, s.setup);
      if Completes(book, e, maxHold) || appended != [] {
        var t := AsShadow(e.tick, maxHold(s.setup.timeframe));
        var settled := SettleTradePlan(s.setup.plan, s.holding, t);
        assert Seen(book, events, maxHold, s.setup) == [t] + rest;
        if settled.1.Some? {
          ExitMatches(s, t, rest, from, OutcomesOver(next, events[1..], maxHold, s.setup.id),
                      RowWith(RunOn(book, events, maxHold).open, s.setup.id));
        } else {
          assert ([t] + rest)[1..] == rest;
          ShadowExitsLikePaper(next, events[1..], maxHold, s.(holding := settled.0, lastSeen := e.tick.lastClose), from + 1);
        }
      } else {
        assert Seen(book, events, maxHold, s.setup) == rest;
        ShadowExitsLikePaper(next, events[1..], maxHold, s, from);
      }
    }
  }

  /** The candles of a run. */
  function Ticks(events: seq<Event>, maxHold: int): seq<Tick> {
    if events == [] then []
    else (if events[0].SettleEvent? then [AsShadow(events[0].tick, maxHold)] else []) + Ticks(events[1..], maxHold)
  }

  ghost predicate AllComplete(book: Book, events: seq<Event>, maxHold: string -> int)
    decreases |events|
  {
    events != [] ==>
      (events[0].SettleEvent? ==> Completes(book, events[0], maxHold)) &&
      AllComplete(Step(book, events[0], maxHold), events[1..], maxHold)
  }

  /** Without crashes every candle of the run reaches every shadow position. */
  lemma {:induction false} EveryCandleIsSeen(book: Book, events: seq<Event>, maxHold: string -> int, s: Setup)
    requires AllComplete(book, events, maxHold)
    ensures Seen(book, events, maxHold, s) == Ticks(events, maxHold(s.timeframe))
    decreases |events|
  {
    if events != [] {
      EveryCandleIsSeen(Step(book, events[0], maxHold), events[1..], maxHold, s);
    }
  }
}
