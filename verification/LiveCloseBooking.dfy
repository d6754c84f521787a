/** What is booked against what was traded: a row repeated after a crash, a partial fill
    booked as the whole close, and the part a cancelled close had already executed. */
module LiveCloseBooking {
  import opened Common
  import opened PositionKernel
  import opened RetryPolicy
  import opened LiveClose
  import opened LiveCloseSafety
  import opened LiveCloseProgress
  import opened LiveLedger

  // ---- the world a row is booked in ----

  /** The close `row` was priced from is still pending in the position, and at the venue as the row has it. */
  predicate AwaitsClearing(w: World, row: Row) {
    && IsPending(w) && w.pos.value.pending.value.id == row.closeId
    && row == RowOf(w.pos.value, row.closeId, row.fill, row.day)
    && row.closeId in w.venue && w.venue[row.closeId] == row.fill && IsFillOrder(row.fill)
  }

  /** A cycle that closes books its row one effect before it clears the position. */
  predicate EndsOnPending(e: Effects) {
    e.outcome.Closed? ==> |e.trace| >= 2 && AwaitsClearing(e.trace[|e.trace| - 2], e.outcome.row)
  }

  lemma EndsOnPendingAfter(a: seq<World>, e: Effects)
    requires EndsOnPending(e)
    ensures EndsOnPending(Effects(a + e.trace, e.outcome))
  {
    if e.outcome.Closed? {
      assert (a + e.trace)[|a + e.trace| - 2] == e.trace[|e.trace| - 2];
    }
  }

  lemma AskedFill(w: World, id: Id, talk: Talk)
    requires IsFill(Ask(w, id, talk).1)
    ensures var (w1, a) := Ask(w, id, talk);
            w1.pos == w.pos && id in w1.venue && w1.venue[id] == a.order.value
  {
  }

  lemma FillEndsOnPending(w: World, p: Position, id: Id, fill: Order, day: int)
    requires w.pos == Some(p) && p.pending.Some? && p.pending.value.id == id
    requires id in w.venue && w.venue[id] == fill && IsFillOrder(fill)
    ensures EndsOnPending(SettleFromFill(w, p, id, fill, day))
  {
  }

  lemma ReadBackEndsOnPending(w: World, p: Position, id: Id, x: CycleInput)
    requires w.pos == Some(p) && p.pending.Some? && p.pending.value.id == id
    ensures EndsOnPending(ReadBack(w, p, id, x))
  {
    var asked := Ask(w, id, x.readBack);
    if IsFill(asked.1) {
      AskedFill(w, id, x.readBack);
      FillEndsOnPending(asked.0, p, id, asked.1.order.value, x.day);
      EndsOnPendingAfter([asked.0], SettleFromFill(asked.0, p, id, asked.1.order.value, x.day));
    }
  }

  lemma ResolveEndsOnPending(w: World, p: Position, x: CycleInput)
    requires w.pos == Some(p)
    ensures EndsOnPending(ResolvePending(w, p, x).0)
  {
    if p.pending.Some? {
      var id := p.pending.value.id;
      var asked := Ask(w, id, x.pendingTalk);
      if IsFill(asked.1) {
        AskedFill(w, id, x.pendingTalk);
        FillEndsOnPending(asked.0, p, id, asked.1.order.value, x.day);
        EndsOnPendingAfter([asked.0], SettleFromFill(asked.0, p, id, asked.1.order.value, x.day));
      }
    }
  }

  lemma FreshEndsOnPending(w: World, p: Position, reason: Reason, x: CycleInput)
    requires w.pos.Some? && w.pos.value.id == p.id
    ensures EndsOnPending(FreshClose(w, p, reason, x))
  {
    var p', ahead, sent, performed, w1, tail := FreshCloseParts(w, p, reason, x);
    SubmitSteady(w, ahead, w.clock, p', x);
    if performed {
      ReadBackEndsOnPending(w1, p', w.clock, x);
    }
    EndsOnPendingAfter([ahead] + sent, tail);
  }

  lemma CycleEndsOnPending(w: World, x: CycleInput)
    ensures EndsOnPending(SettleCycle(w, x))
  {
    if w.pos.Some? {
      var resolved, live, w1, decided := CycleParts(w, x);
      ResolveEndsOnPending(w, w.pos.value, x);
      ResolveShaped(w, x);
      if live.Some? {
        var signal := ExitSignal(live.value.plan, live.value.holding, x.tick);
        if signal.1.Some? {
          FreshEndsOnPending(w1, live.value.(holding := signal.0), signal.1.value, x);
        }
        EndsOnPendingAfter(resolved.trace, decided);
      }
    }
  }

  // ---- a crash between append and clear ----

  lemma StrandedAwaits(w: World, e: Event) returns (row: Row)
    requires Strands(w, e)
    ensures ClosingRows(w, e) == [row]
    ensures AwaitsClearing(Step(w, e), row) && Step(w, e).ledger == w.ledger + [row]
  {
    var cycle := SettleCycle(w, e.input);
    row := cycle.outcome.row;
    CycleEndsOnPending(w, e.input);
    CycleShaped(w, e.input);
    assert cycle.trace[..e.cut][e.cut - 1] == cycle.trace[|cycle.trace| - 2] == Step(w, e);
  }

  lemma NothingEvolves(venue: map<Id, Order>)
    ensures Evolve(venue, map[]) == venue
  {
  }

  /** A close still pending after its row was appended is booked again, on the same fill. */
  lemma AwaitingIsBookedAgain(v: World, row: Row, y: CycleInput, cut: nat)
    requires AwaitsClearing(v, row) && y.pendingTalk == Talk(map[], Up) && cut >= 3
    ensures Step(v, Settles(y, cut)).ledger == v.ledger + [row.(day := y.day)] && Step(v, Settles(y, cut)).pos.None?
  {
    NothingEvolves(v.venue);
    assert PendingAnswer(v, y) == Found(Some(row.fill));
    PendingFillIsBooked(v, y);
    assert |SettleCycle(v, y).trace| == 3;
  }

  /** A row stranded by a crash is booked a second time by the next cycle that can ask. */
  lemma StrandedRowIsRepeated(w: World, e: Event, y: CycleInput, cut: nat) returns (row: Row, u: World)
    requires Strands(w, e) && y.pendingTalk == Talk(map[], Up) && cut >= 3
    ensures ClosingRows(w, e) == [row] && u == Step(Step(w, e), Settles(y, cut))
    ensures u.ledger == w.ledger + [row, row.(day := y.day)] && u.pos.None?
  {
    row := StrandedAwaits(w, e);
    u := Step(Step(w, e), Settles(y, cut));
    AwaitingIsBookedAgain(Step(w, e), row, y, cut);
    assert w.ledger + [row, row.(day := y.day)] == (w.ledger + [row]) + [row.(day := y.day)];
  }

  // ---- what was booked against what was traded ----

  /** A close of this position that the venue has. */
  predicate CloseOf(w: World, positionId: Id, id: Id) {
    id in w.venue && id in w.posted && w.posted[id] == positionId
  }

  /** What the venue executed of one id as a close of the position. */
  function Part(w: World, positionId: Id, id: Id): real {
    if CloseOf(w, positionId, id) then w.venue[id].executedQty else 0.0
  }

  function ExecutedBelow(w: World, positionId: Id, n: nat): real {
    if n == 0 then 0.0 else ExecutedBelow(w, positionId, n - 1) + Part(w, positionId, n - 1)
  }

  /** What the venue executed over all closes of the position. */
  function Executed(w: World, positionId: Id): real {
    ExecutedBelow(w, positionId, w.clock)
  }

  lemma {:induction false} SumIsZero(w: World, positionId: Id, n: nat)
    requires forall id: nat :: id < n ==> Part(w, positionId, id) >= 0.0
    ensures ExecutedBelow(w, positionId, n) >= 0.0
    ensures ExecutedBelow(w, positionId, n) == 0.0 <==> forall id: nat :: id < n ==> Part(w, positionId, id) == 0.0
  {
    if n > 0 {
      SumIsZero(w, positionId, n - 1);
    }
  }

  lemma {:induction false} SumIsOnePart(w: World, positionId: Id, n: nat, k: nat)
    requires k < n && forall id: nat :: id < n ==> Part(w, positionId, id) >= 0.0
    ensures ExecutedBelow(w, positionId, n) >= Part(w, positionId, k)
    ensures ExecutedBelow(w, positionId, n) == Part(w, positionId, k) <==>
            forall id: nat :: id < n && id != k ==> Part(w, positionId, id) == 0.0
  {
    if k == n - 1 {
      SumIsZero(w, positionId, n - 1);
    } else {
      SumIsOnePart(w, positionId, n - 1, k);
    }
  }

  /** In every reachable state a row books what was opened if and only if the fill it was
      priced from was complete, or reported no quantity at all. */
  lemma BookedIsOpened(events: seq<Event>, i: nat)
    requires i < |Run(START, events).ledger|
    ensures var w, r := Run(START, events), Run(START, events).ledger[i];
            r.positionId in w.terms &&
            (r.quantity == w.terms[r.positionId].1 <==>
               r.fill.executedQty == 0.0 || r.fill.executedQty == w.terms[r.positionId].1)
  {
    RunKeeps(START, events);
    assert Justified(Run(START, events), Run(START, events).ledger[i]);
  }

  /** The world in which a clearing step has appended its row, one effect before it clears. */
  lemma ClearedFrom(w: World, e: Event) returns (row: Row, v: World)
    requires Inv(w) && Clears(w, e)
    ensures ClosingRows(w, e) == [row] && row.positionId == w.pos.value.id
    ensures Step(w, e) == v.(pos := None) && v.ledger == w.ledger + [row]
    ensures Inv(v) && AwaitsClearing(v, row)
  {
    var cycle := SettleCycle(w, e.input);
    var n := |cycle.trace|;
    StepBooks(w, e);
    CycleShaped(w, e.input);
    CutShaped(w, cycle, e.cut);
    CycleEndsOnPending(w, e.input);
    CycleKeeps(w, e.input);
    AllInvCut(w, cycle.trace, n - 1);
    row, v := cycle.outcome.row, cycle.trace[n - 2];
    assert cycle.trace[..n - 1][n - 2] == v;
  }

  /** Every other close of the row's position is dead. */
  ghost predicate OthersDead(w: World, row: Row) {
    forall id :: CloseOf(w, row.positionId, id) && id != row.closeId ==> Dead(w.venue[id].status)
  }

  /** No other close of the row's position has executed anything. */
  ghost predicate OthersIdle(w: World, row: Row) {
    forall id :: CloseOf(w, row.positionId, id) && id != row.closeId ==> w.venue[id].executedQty == 0.0
  }

  predicate ReportsNoNegative(w: World) {
    forall id :: id in w.venue ==> w.venue[id].executedQty >= 0.0
  }

  lemma IdleIsZero(w: World, row: Row)
    requires IdsInUse(w) && CloseOf(w, row.positionId, row.closeId) && ReportsNoNegative(w)
    ensures Executed(w, row.positionId) == Part(w, row.positionId, row.closeId) <==> OthersIdle(w, row)
  {
    SumIsOnePart(w, row.positionId, w.clock, row.closeId);
    if OthersIdle(w, row) {
      assert forall id: nat :: id < w.clock && id != row.closeId ==> Part(w, row.positionId, id) == 0.0;
    } else {
      var id: nat :| CloseOf(w, row.positionId, id) && id != row.closeId && w.venue[id].executedQty != 0.0;
      assert id in w.posted && Part(w, row.positionId, id) != 0.0;
    }
  }

  /** When a run settles a position, every close of it but the booked one is dead, and what is booked is
      what the venue executed over all its closes if and only if none of the dead ones had executed anything. */
  lemma BookedIsExecuted(events: seq<Event>, e: Event) returns (u: World, row: Row)
    requires Clears(Run(START, events), e)
    ensures u == Step(Run(START, events), e) && u.ledger == Run(START, events).ledger + [row]
    ensures IsOpen(Run(START, events), row.positionId)
    ensures CloseOf(u, row.positionId, row.closeId) && u.venue[row.closeId] == row.fill
    ensures OthersDead(u, row)
    ensures ReportsNoNegative(u) && row.fill.executedQty != 0.0 ==>
              (row.quantity == Executed(u, row.positionId) <==> OthersIdle(u, row))
  {
    var w := Run(START, events);
    RunKeeps(START, events);
    var v;
    row, v := ClearedFrom(w, e);
    u := Step(w, e);
    assert NoRace(v, v.pos.value) && row.closeId in v.posted;
    assert IdsInUse(u);
    if ReportsNoNegative(u) {
      IdleIsZero(u, row);
    }
  }

  // ---- three runs that show it ----

  const QUIET := Talk(map[], Up)

  const ENTRY := Entry(true, true, FILLED, 100.0, 2.0, 100.0, 2.0, LONG, 90.0, 110.0)

  const PLAN := Plan(LONG, 100.0, 90.0, 110.0, 10.0)

  const HELD := Position(0, PLAN, 2.0, FRESH, None)

  /** 2.0 bought at 100.0 and nothing else. */
  const OPENED := START.(pos := Some(HELD), terms := map[0 := (PLAN, 2.0)], clock := 1)

  const DONE := Order(FILLED, 105.0, 2.0)

  const HALF := Order(PARTIALLY_FILLED, 105.0, 1.0)

  const WORKING := Order(NEW, 0.0, 0.0)

  const CANCELLED_HALF := Order(CANCELED, 105.0, 1.0)

  const OTHER_HALF := Order(FILLED, 105.0, 1.0)

  /** A manual exit: a pending close is answered after `wish`, and a new one is accepted as `order`. */
  function ManualClose(wish: map<Id, Order>, order: Order): CycleInput {
    CycleInput(Tick(None, Some(105.0), true, 4), 7, true, Talk(wish, Up),
               PostTalk(map[], Http(200), true, order), QUIET, QUIET)
  }

  /** A manual exit up to the POST and its read-back. */
  lemma ManualCloseEffects(w: World, p: Position, wish: map<Id, Order>, order: Order)
    returns (marked: Position, ahead: World, sent: World, read: World)
    requires w.pos == Some(p) && p.pending.None? && p.quantity > 0.0
    ensures marked == p.(pending := Some(Pending(w.clock, ManualExit)))
    ensures ahead == Save(w, marked).(clock := w.clock + 1)
    ensures sent == ahead.(venue := w.venue[w.clock := order], posted := w.posted[w.clock := p.id])
    ensures read == sent.(told := w.told + {Report(w.clock, order)})
    ensures SettleCycle(w, ManualClose(wish, order)).trace ==
            if IsFillOrder(order) then
              var booked := read.(ledger := w.ledger + [RowOf(marked, w.clock, order, 7)]);
              [ahead, sent, read, booked, booked.(pos := None)]
            else [ahead, sent, read, read]
    ensures SettleCycle(w, ManualClose(wish, order)).outcome ==
            if IsFillOrder(order) then Closed(RowOf(marked, w.clock, order, 7)) else CloseUnconfirmed
  {
    var x := ManualClose(wish, order);
    marked := p.(pending := Some(Pending(w.clock, ManualExit)));
    ahead := Save(w, marked).(clock := w.clock + 1);
    NothingEvolves(w.venue);
    sent := PostClose(ahead, w.clock, p.id, x.post);
    NothingEvolves(sent.venue);
    read := Ask(sent, w.clock, QUIET).0;
    assert SubmitClose(ahead, w.clock, marked, x) == ([sent], true);
    var back := ReadBack(sent, marked, w.clock, x);
    assert SettleCycle(w, x).trace == [] + ([ahead] + [sent] + back.trace);
  }

  /** A manual exit that fills, run to its end. */
  lemma ManualCloseFills(w: World, p: Position, wish: map<Id, Order>, order: Order) returns (u: World)
    requires w.pos == Some(p) && p.pending.None? && p.quantity > 0.0 && IsFillOrder(order)
    ensures |SettleCycle(w, ManualClose(wish, order)).trace| == 5
    ensures u == Last(w, SettleCycle(w, ManualClose(wish, order)).trace)
    ensures u.pos.None? && u.ledger == w.ledger + [RowOf(p, w.clock, order, 7)] && u.terms == w.terms
    ensures u.venue == w.venue[w.clock := order] && u.posted == w.posted[w.clock := p.id] && u.clock == w.clock + 1
  {
    var marked, ahead, sent, read := ManualCloseEffects(w, p, wish, order);
    u := read.(ledger := w.ledger + [RowOf(marked, w.clock, order, 7)], pos := None);
  }

  lemma OpensTwo()
    ensures Step(START, Opens(ENTRY)) == OPENED
  {
    assert Abs(100.0 - 90.0) == 10.0;
  }

  lemma RunOfTwo(w: World, a: Event, b: Event)
    ensures Run(w, [a, b]) == Step(Step(w, a), b)
  {
    assert [a, b][1..] == [b] && [b][1..] == [];
    assert Run(Step(w, a), [b]) == Run(Step(Step(w, a), b), []);
  }

  lemma RunOfThree(w: World, a: Event, b: Event, c: Event)
    ensures Run(w, [a, b, c]) == Step(Step(Step(w, a), b), c)
  {
    assert [a, b, c][1..] == [b, c];
    RunOfTwo(Step(w, a), b, c);
  }

  /** A close of 2.0 that the venue reports as partially filled with 1.0 clears the whole position. */
  lemma PartialFillClears()
    ensures var w := Run(START, [Opens(ENTRY), Settles(ManualClose(map[], HALF), 9)]);
            && w.pos.None? && 0 in w.terms && w.terms[0].1 == 2.0
            && |w.ledger| == 1 && w.ledger[0].positionId == 0 && w.ledger[0].quantity == 1.0
  {
    RunOfTwo(START, Opens(ENTRY), Settles(ManualClose(map[], HALF), 9));
    OpensTwo();
    var w := ManualCloseFills(OPENED, HELD, map[], HALF);
  }

  /** The venue cancels the pending close after 1.0; the cycle that learns of it closes afresh. */
  lemma CancelledThenClosed(w: World, marked: Position) returns (u: World)
    requires w.pos == Some(marked) && marked == HELD.(pending := Some(Pending(1, ManualExit))) && w.clock == 2
    requires w.venue == map[1 := WORKING] && w.posted == map[1 := 0] && w.ledger == []
    ensures u == Step(w, Settles(ManualClose(map[1 := CANCELLED_HALF], OTHER_HALF), 9))
    ensures u.pos.None? && u.ledger == [RowOf(HELD, 2, OTHER_HALF, 7)] && u.clock == 3
    ensures u.venue == map[1 := CANCELLED_HALF, 2 := OTHER_HALF] && u.posted == map[1 := 0, 2 := 0]
  {
    var x := ManualClose(map[1 := CANCELLED_HALF], OTHER_HALF);
    assert Evolve(w.venue, x.pendingTalk.wish) == map[1 := CANCELLED_HALF];
    var asked, retried := DeadThenDecides(w, x);
    u := ManualCloseFills(retried, HELD, map[1 := CANCELLED_HALF], OTHER_HALF);
    LastOfBoth(w, [asked, retried], SettleCycle(retried, x).trace);
  }

  lemma ExecutedIsTwo(w: World)
    requires w.venue == map[1 := CANCELLED_HALF, 2 := OTHER_HALF] && w.posted == map[1 := 0, 2 := 0] && w.clock == 3
    ensures Executed(w, 0) == 2.0
  {
    assert Part(w, 0, 0) == 0.0 && Part(w, 0, 1) == 1.0 && Part(w, 0, 2) == 1.0;
    assert ExecutedBelow(w, 0, 1) == 0.0 && ExecutedBelow(w, 0, 2) == 1.0;
  }

  /** A close cancelled after 1.0, and a second one that executes the other 1.0: 2.0 traded, 1.0 booked. */
  lemma CancelledPartIsDropped()
    ensures var w := Run(START, [Opens(ENTRY), Settles(ManualClose(map[], WORKING), 9),
                                 Settles(ManualClose(map[1 := CANCELLED_HALF], OTHER_HALF), 9)]);
            && w.pos.None? && |w.ledger| == 1 && w.ledger[0].quantity == 1.0 && Executed(w, 0) == 2.0
  {
    var first := Settles(ManualClose(map[], WORKING), 9);
    var second := Settles(ManualClose(map[1 := CANCELLED_HALF], OTHER_HALF), 9);
    RunOfThree(START, Opens(ENTRY), first, second);
    OpensTwo();
    var marked, ahead, sent, read := ManualCloseEffects(OPENED, HELD, map[], WORKING);
    assert Step(OPENED, first) == read;
    var w := CancelledThenClosed(read, marked);
    ExecutedIsTwo(w);
  }

  /** A crash between append and clear: one position, one fill, two rows. */
  lemma CrashRepeatsTheRow()
    ensures var w := Run(START, [Opens(ENTRY), Settles(ManualClose(map[], DONE), 4), Settles(ManualClose(map[], DONE), 9)]);
            w.pos.None? && |w.ledger| == 2 && w.ledger[0] == w.ledger[1] && w.ledger[0].quantity == 2.0
  {
    var x := ManualClose(map[], DONE);
    RunOfThree(START, Opens(ENTRY), Settles(x, 4), Settles(x, 9));
    OpensTwo();
    var marked, ahead, sent, read := ManualCloseEffects(OPENED, HELD, map[], DONE);
    var row, u := StrandedRowIsRepeated(OPENED, Settles(x, 4), x, 9);
  }
}
