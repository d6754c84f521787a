/** The close protocol also gets things done: fills are booked, exits are acted on, and a close
    whose reply was lost in a crash is recovered without a second one. */
module LiveCloseProgress {
  import opened Common
  import opened PositionKernel
  import opened RetryPolicy
  import opened LiveClose

  /** A cycle that books this fill of this close and clears the position. */
  predicate Books(w: World, e: Effects, p: Position, id: Id, fill: Order, day: int) {
    var row := RowOf(p, id, fill, day);
    e.outcome == Closed(row) && Last(w, e.trace).pos.None? && Last(w, e.trace).ledger == w.ledger + [row]
  }

  predicate IsFillOrder(o: Order) {
    Filled(o.status) && o.avgPrice > 0.0
  }

  predicate IsPending(w: World) {
    w.pos.Some? && w.pos.value.pending.Some?
  }

  /** What the venue answers about the pending close in this cycle. */
  function PendingAnswer(w: World, x: CycleInput): Answer
    requires IsPending(w)
  {
    Ask(w, w.pos.value.pending.value.id, x.pendingTalk).1
  }

  /** A pending close that has filled is booked by the first cycle that can ask, with no further order. */
  lemma PendingFillIsBooked(w: World, x: CycleInput)
    requires IsPending(w) && IsFill(PendingAnswer(w, x))
    ensures Books(w, SettleCycle(w, x), w.pos.value, w.pos.value.pending.value.id, PendingAnswer(w, x).order.value, x.day)
    ensures Last(w, SettleCycle(w, x).trace).posted == w.posted
  {
  }

  /** No close is pending and this cycle's candle calls for an exit. */
  predicate Exiting(w: World, x: CycleInput) {
    && w.pos.Some? && w.pos.value.pending.None?
    && ExitSignal(w.pos.value.plan, w.pos.value.holding, x.tick).1.Some?
  }

  function Signalled(w: World, x: CycleInput): Reason
    requires Exiting(w, x)
  {
    ExitSignal(w.pos.value.plan, w.pos.value.holding, x.tick).1.value
  }

  /** The position as the write-ahead saves it. */
  function Marked(w: World, x: CycleInput): Position
    requires Exiting(w, x)
  {
    var p := w.pos.value;
    p.(holding := ExitSignal(p.plan, p.holding, x.tick).0, pending := Some(Pending(w.clock, Signalled(w, x))))
  }

  /** A close that has been submitted by the first two effects of a cycle: its id saved, then the POST. */
  lemma SubmittedAfterTwo(w: World, x: CycleInput)
    requires Exiting(w, x) && x.guardApproves && w.pos.value.quantity > 0.0
    ensures var p := Marked(w, x);
            var trace := SettleCycle(w, x).trace;
            |trace| >= 3 && trace[0] == Save(w, p).(clock := w.clock + 1)
            && trace[1] == PostClose(trace[0], w.clock, p.id, x.post)
  {
    var live := w.pos.value;
    var p := live.(holding := ExitSignal(live.plan, live.holding, x.tick).0);
    var sent := SubmitClose(Save(w, Marked(w, x)).(clock := w.clock + 1), w.clock, Marked(w, x), x).0;
    assert |sent| >= 1;
    assert SettleCycle(w, x).trace == [] + FreshClose(w, p, Signalled(w, x), x).trace;
  }

  // ---- waiting for an answer ----

  /** An event that leaves the fate of the pending close open: anything but a cycle whose query is answered by a
      fill or by a death. Queries that fail, unreadable answers and working orders all leave it open. */
  predicate Undecided(w: World, e: Event)
    requires IsPending(w)
  {
    e.Settles? ==> !IsFill(PendingAnswer(w, e.input)) && !IsDead(PendingAnswer(w, e.input))
  }

  /** What waiting leaves alone: everything but what the venue holds under the ids it has. */
  predicate SameButVenue(w: World, u: World) {
    && u.pos == w.pos && u.ledger == w.ledger && u.posted == w.posted && u.terms == w.terms && u.clock == w.clock
    && u.venue.Keys == w.venue.Keys
  }

  lemma UndecidedStep(w: World, e: Event)
    requires IsPending(w) && Undecided(w, e)
    ensures SameButVenue(w, Step(w, e))
  {
    if e.Settles? {
      var p, w1 := w.pos.value, Ask(w, w.pos.value.pending.value.id, e.input.pendingTalk).0;
      assert SettleCycle(w, e.input).trace == [w1, Save(w1, p)];
      assert SameButVenue(w, w1) && SameButVenue(w, Save(w1, p));
      if e.cut == 1 {
        assert [w1, Save(w1, p)][..1] == [w1];
      }
    }
  }

  ghost predicate AllUndecided(w: World, events: seq<Event>)
    decreases |events|
  {
    events != [] ==> IsPending(w) && Undecided(w, events[0]) && AllUndecided(Step(w, events[0]), events[1..])
  }

  /** However long the venue leaves a pending close undecided, crashes and venue moves in between included,
      the position, its pending id, the ledger and the orders sent stay as they are. */
  lemma {:induction false} PendingIsKept(w: World, wait: seq<Event>)
    requires IsPending(w) && AllUndecided(w, wait)
    ensures SameButVenue(w, Run(w, wait))
    decreases |wait|
  {
    if wait != [] {
      UndecidedStep(w, wait[0]);
      PendingIsKept(Step(w, wait[0]), wait[1..]);
    }
  }

  /** Every close a world of the trace remembers is this one. */
  predicate Remembers(trace: seq<World>, id: Id) {
    forall k :: 0 <= k < |trace| && IsPending(trace[k]) ==> trace[k].pos.value.pending.value.id == id
  }

  lemma SubmitRemembers(w: World, id: Id, p: Position, x: CycleInput)
    requires w.pos == Some(p) && p.pending.Some? && p.pending.value.id == id
    ensures Remembers(SubmitClose(w, id, p, x).0, id)
  {
  }

  lemma TailRemembers(w1: World, p: Position, tail: Effects, performed: bool, p': Position, id: Id, x: CycleInput)
    requires w1.pos == Some(p') && p.pending.None? && p'.pending.Some? && p'.pending.value.id == id
    requires tail == if performed then ReadBack(w1, p', id, x) else Effects([Save(w1, p)], CloseFailed)
    ensures Remembers(tail.trace, id)
  {
  }

  lemma SubmitKeepsPos(w: World, id: Id, p: Position, x: CycleInput)
    requires w.pos == Some(p)
    ensures Last(w, SubmitClose(w, id, p, x).0).pos == Some(p)
  {
  }

  lemma FreshRemembers(w: World, p: Position, reason: Reason, x: CycleInput)
    requires p.pending.None?
    ensures Remembers(FreshClose(w, p, reason, x).trace, w.clock)
  {
    var p', ahead, sent, performed, w1, tail := FreshCloseParts(w, p, reason, x);
    SubmitRemembers(ahead, w.clock, p', x);
    SubmitKeepsPos(ahead, w.clock, p', x);
    TailRemembers(w1, p, tail, performed, p', w.clock, x);
    assert Remembers([ahead], w.clock);
  }

  /** With nothing pending a cycle can only come to remember a close under a fresh id. */
  lemma CycleRemembersFresh(w: World, x: CycleInput)
    requires w.pos.Some? && w.pos.value.pending.None?
    ensures Remembers(SettleCycle(w, x).trace, w.clock)
  {
    var p := w.pos.value;
    var signal := ExitSignal(p.plan, p.holding, x.tick);
    if signal.1.Some? {
      FreshRemembers(w, p.(holding := signal.0), signal.1.value, x);
    }
    assert SettleCycle(w, x).trace == [] + Decide(w, p, x).trace;
  }

  /** A cycle that learns its pending close is dead goes on as a cycle of the position without it. */
  lemma DeadThenDecides(w: World, x: CycleInput) returns (asked: World, retried: World)
    requires IsPending(w) && IsDead(PendingAnswer(w, x))
    ensures asked == Ask(w, w.pos.value.pending.value.id, x.pendingTalk).0
    ensures retried == Save(asked, w.pos.value.(pending := None))
    ensures SettleCycle(w, x) == Effects([asked, retried] + SettleCycle(retried, x).trace, SettleCycle(retried, x).outcome)
  {
    asked := Ask(w, w.pos.value.pending.value.id, x.pendingTalk).0;
    retried := Save(asked, w.pos.value.(pending := None));
    assert [] + Decide(retried, retried.pos.value, x).trace == Decide(retried, retried.pos.value, x).trace;
  }

  /** The venue declares the pending close dead: the position drops the id, with its second effect, the id can never
      fill again, and from there on any close the cycle remembers or sends carries a fresh one. */
  predicate Drops(u: World, y: CycleInput, p: Position, id: Id) {
    var trace := SettleCycle(u, y).trace;
    && |trace| >= 2 && trace[1].pos == Some(p.(pending := None)) && Retired(trace[1], id)
    && Remembers(trace[1..], u.clock)
  }

  lemma DeadIsDropped(u: World, y: CycleInput)
    requires IsPending(u) && IsDead(PendingAnswer(u, y))
    ensures Drops(u, y, u.pos.value, u.pos.value.pending.value.id)
  {
    var asked, retried := DeadThenDecides(u, y);
    var rest := SettleCycle(retried, y).trace;
    CycleRemembersFresh(retried, y);
    assert SettleCycle(u, y).trace[1..] == [retried] + rest;
  }

  /** After any wait, the first decisive answer settles that very order and sends no second close for it:
      a fill is booked and clears the position, a death drops the id for good. */
  lemma RecoveredAfterAnyWait(w: World, wait: seq<Event>, y: CycleInput)
    requires IsPending(w) && AllUndecided(w, wait)
    ensures var u := Run(w, wait);
            var p, id := w.pos.value, w.pos.value.pending.value.id;
            && u.pos == w.pos && u.ledger == w.ledger && u.posted == w.posted && u.clock == w.clock
            && var a := PendingAnswer(u, y);
               && (IsFill(a) ==>
                     Books(u, SettleCycle(u, y), p, id, a.order.value, y.day) &&
                     Last(u, SettleCycle(u, y).trace).posted == w.posted)
               && (IsDead(a) ==> Drops(u, y, p, id))
               && (!IsFill(a) && !IsDead(a) ==> SameButVenue(w, Step(u, Settles(y, 2))))
  {
    PendingIsKept(w, wait);
    var u := Run(w, wait);
    if IsFill(PendingAnswer(u, y)) {
      PendingFillIsBooked(u, y);
    } else if IsDead(PendingAnswer(u, y)) {
      DeadIsDropped(u, y);
    } else {
      UndecidedStep(u, Settles(y, 2));
    }
  }

  /** A lost close is recovered. The cycle crashes right after its POST, which reached the book. Whatever happened
      to the reply, and however many cycles, crashes and venue moves pass undecided, the first cycle that learns
      of the fill books that very order, clears the position, and no second close has been sent. */
  lemma LostCloseIsRecovered(w: World, x: CycleInput, wait: seq<Event>, y: CycleInput)
    requires Exiting(w, x) && x.guardApproves && w.pos.value.quantity > 0.0 && Lands(x.post)
    requires AllUndecided(Cut(w, SettleCycle(w, x).trace, 2), wait)
    ensures var crashed := Cut(w, SettleCycle(w, x).trace, 2);
            var u := Run(crashed, wait);
            && crashed.pos == u.pos == Some(Marked(w, x)) && u.ledger == w.ledger
            && crashed.posted == u.posted == w.posted[w.clock := w.pos.value.id]
            && w.clock in u.venue
            && var a := PendingAnswer(u, y);
               IsFill(a) ==>
                 Books(u, SettleCycle(u, y), Marked(w, x), w.clock, a.order.value, y.day) &&
                 Last(u, SettleCycle(u, y).trace).posted == u.posted
  {
    SubmittedAfterTwo(w, x);
    var trace := SettleCycle(w, x).trace;
    assert trace[..2][1] == trace[1];
    var crashed := Cut(w, trace, 2);
    assert crashed == trace[1];
    PendingIsKept(crashed, wait);
    RecoveredAfterAnyWait(crashed, wait, y);
    assert w.clock in crashed.venue.Keys;
  }

  /** The close as the venue has it when it is read back right after an accepted POST. */
  function ReadBackOrder(w: World, x: CycleInput): Order
    requires Exiting(w, x) && Submitted(x.post.reply)
  {
    var ahead := Save(w, Marked(w, x)).(clock := w.clock + 1);
    Evolve(PostClose(ahead, w.clock, w.pos.value.id, x.post).venue, x.readBack.wish)[w.clock]
  }

  /** An exit signal is acted on: approved, accepted and filled, the close is booked in the same cycle. */
  lemma ExitIsActedOn(w: World, x: CycleInput)
    requires Exiting(w, x) && x.guardApproves && w.pos.value.quantity > 0.0
    requires Submitted(x.post.reply) && x.readBack.link.Up? && IsFillOrder(ReadBackOrder(w, x))
    ensures Books(w, SettleCycle(w, x), Marked(w, x), w.clock, ReadBackOrder(w, x), x.day)
  {
    var live := w.pos.value;
    var p := live.(holding := ExitSignal(live.plan, live.holding, x.tick).0);
    var ahead := Save(w, Marked(w, x)).(clock := w.clock + 1);
    assert SubmitClose(ahead, w.clock, Marked(w, x), x) == ([PostClose(ahead, w.clock, live.id, x.post)], true);
    assert SettleCycle(w, x).trace == [] + FreshClose(w, p, Signalled(w, x), x).trace;
  }

  /** A close that is still open is reported as pending when the venue answered, and as unconfirmed when it did not. */
  lemma WaitingIsReported(w: World, x: CycleInput)
    requires IsPending(w) && !IsFill(PendingAnswer(w, x)) && !IsDead(PendingAnswer(w, x))
    ensures SettleCycle(w, x).outcome == if x.pendingTalk.link == Down then CloseUnconfirmed else ClosePending
  {
  }

  /** A close the guard refuses, or of nothing, fails: nothing is sent and the written-ahead id is dropped again. */
  lemma RefusedCloseFails(w: World, x: CycleInput)
    requires Exiting(w, x) && (!x.guardApproves || w.pos.value.quantity <= 0.0)
    ensures SettleCycle(w, x).outcome == CloseFailed
    ensures var u := Last(w, SettleCycle(w, x).trace);
            && u.posted == w.posted && u.ledger == w.ledger && u.clock == w.clock + 1
            && u.pos == Some(Marked(w, x).(pending := None))
  {
    var live := w.pos.value;
    var p := live.(holding := ExitSignal(live.plan, live.holding, x.tick).0);
    assert SubmitClose(Save(w, Marked(w, x)).(clock := w.clock + 1), w.clock, Marked(w, x), x) == ([], false);
    assert SettleCycle(w, x).trace == [] + FreshClose(w, p, Signalled(w, x), x).trace;
  }

  /** Without a pending close and without a signal a cycle orders nothing and only counts the candle. */
  lemma NoSignalNoOrder(w: World, x: CycleInput)
    requires w.pos.Some? && w.pos.value.pending.None? && !Exiting(w, x)
    ensures var holding := ExitSignal(w.pos.value.plan, w.pos.value.holding, x.tick).0;
            Last(w, SettleCycle(w, x).trace) == w.(pos := Some(w.pos.value.(holding := holding)))
  {
    var live := w.pos.value;
    assert SettleCycle(w, x).trace == [] + Decide(w, live, x).trace;
  }

  // ---- when an order is sent ----

  /** The position a fresh decision goes on with: open, with no close pending or one the venue declares dead. */
  predicate Free(w: World, x: CycleInput) {
    w.pos.Some? && (IsPending(w) ==> IsDead(PendingAnswer(w, x)))
  }

  /** A cycle sends a close: it may decide afresh, the candle calls for an exit, and the guard lets it through. */
  predicate Sends(w: World, x: CycleInput) {
    && Free(w, x) && ExitSignal(w.pos.value.plan, w.pos.value.holding, x.tick).1.Some?
    && x.guardApproves && w.pos.value.quantity > 0.0
  }

  lemma SubmitSends(w: World, id: Id, p: Position, x: CycleInput)
    ensures Last(w, SubmitClose(w, id, p, x).0).posted ==
            if x.guardApproves && p.quantity > 0.0 then w.posted[id := p.id] else w.posted
  {
  }

  lemma TailSends(w1: World, p: Position, tail: Effects, performed: bool, p': Position, id: Id, x: CycleInput)
    requires tail == if performed then ReadBack(w1, p', id, x) else Effects([Save(w1, p)], CloseFailed)
    ensures Last(w1, tail.trace).posted == w1.posted
  {
  }

  lemma FreshSends(w: World, p: Position, reason: Reason, x: CycleInput)
    ensures Last(w, FreshClose(w, p, reason, x).trace).posted ==
            if x.guardApproves && p.quantity > 0.0 then w.posted[w.clock := p.id] else w.posted
  {
    var p', ahead, sent, performed, w1, tail := FreshCloseParts(w, p, reason, x);
    SubmitSends(ahead, w.clock, p', x);
    TailSends(w1, p, tail, performed, p', w.clock, x);
    LastOfBoth(w, [ahead], sent);
    LastOfBoth(w, [ahead] + sent, tail.trace);
  }

  lemma DecideSends(w: World, p: Position, x: CycleInput)
    ensures Last(w, Decide(w, p, x).trace).posted ==
            if ExitSignal(p.plan, p.holding, x.tick).1.Some? && x.guardApproves && p.quantity > 0.0
            then w.posted[w.clock := p.id] else w.posted
  {
    var (holding, reason) := ExitSignal(p.plan, p.holding, x.tick);
    if reason.Some? {
      FreshSends(w, p.(holding := holding), reason.value, x);
    }
  }

  /** Resolving the pending close sends nothing, and frees the position as it is but for a dead pending id. */
  lemma ResolveSends(w: World, p: Position, x: CycleInput)
    requires w.pos == Some(p)
    ensures var (resolved, live) := ResolvePending(w, p, x);
            && Last(w, resolved.trace).posted == w.posted && Last(w, resolved.trace).clock == w.clock
            && (live.Some? <==> Free(w, x)) && (live.Some? ==> live.value == p.(pending := None))
  {
  }

  /** A whole cycle sends one close, under a fresh id, exactly when it may decide afresh, the candle calls for
      an exit and the guard approves; in every other case it sends none. */
  lemma SendsExactlyOnExit(w: World, x: CycleInput)
    ensures Last(w, SettleCycle(w, x).trace).posted ==
            if Sends(w, x) then w.posted[w.clock := w.pos.value.id] else w.posted
  {
    if w.pos.Some? {
      var resolved, live, w1, decided := CycleParts(w, x);
      ResolveSends(w, w.pos.value, x);
      if live.Some? {
        DecideSends(w1, live.value, x);
        LastOfBoth(w, resolved.trace, decided.trace);
      }
    }
  }
}
