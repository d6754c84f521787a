/** Orders that can still execute with no position tracking them: exactly what booking a
    partial fill as the whole close leaves at the venue (execution/live_position_kernel.py). */
module LiveCloseOrphans {
  import opened Common
  import opened LiveClose
  import opened LiveCloseSafety
  import opened LiveCloseFinality
  import opened LiveLedger
  import opened LiveCloseBooking

  // ---- whom a cycle sends for ----

  /** Closes that u has and w has not were sent for this position. */
  predicate SendsFor(w: World, u: World, positionId: Id) {
    forall id :: id in u.posted ==> (id in w.posted && u.posted[id] == w.posted[id]) || u.posted[id] == positionId
  }

  lemma {:induction false} GuardedPrefix(w: World, trace: seq<World>, k: nat)
    requires Guarded(w, trace) && k <= |trace|
    ensures Guarded(w, trace[..k])
  {
    if k < |trace| {
      assert trace[..|trace| - 1][..k] == trace[..k];
      GuardedPrefix(w, trace[..|trace| - 1], k);
    } else {
      assert trace[..k] == trace;
    }
  }

  predicate HoldsUntilLast(trace: seq<World>, positionId: Id) {
    forall i :: 0 <= i < |trace| - 1 ==> IsOpen(trace[i], positionId)
  }

  lemma {:induction false} GuardedSends(w: World, trace: seq<World>, positionId: Id)
    requires Guarded(w, trace) && IsOpen(w, positionId) && HoldsUntilLast(trace, positionId)
    ensures SendsFor(w, Last(w, trace), positionId)
  {
    if trace != [] {
      var init := trace[..|trace| - 1];
      GuardedSends(w, init, positionId);
      assert init != [] ==> IsOpen(trace[|init| - 1], positionId);
    }
  }

  lemma ShapedHolds(w: World, e: Effects, k: nat)
    requires Shaped(w, e) && w.pos.Some? && k <= |e.trace|
    ensures HoldsUntilLast(e.trace[..k], w.pos.value.id)
  {
  }

  lemma CutSends(w: World, x: CycleInput, cut: nat)
    requires Inv(w) && w.pos.Some?
    ensures SendsFor(w, Cut(w, SettleCycle(w, x).trace, cut), w.pos.value.id)
  {
    var trace := SettleCycle(w, x).trace;
    var k := if cut < |trace| then cut else |trace|;
    CycleGuarded(w, x);
    CycleShaped(w, x);
    GuardedPrefix(w, trace, k);
    ShapedHolds(w, SettleCycle(w, x), k);
    GuardedSends(w, trace[..k], w.pos.value.id);
    assert trace[..|trace|] == trace;
  }

  // ---- the invariant ----

  /** A row was booked from this close while the venue reported it partially filled. */
  predicate PartlyBooked(w: World, id: Id) {
    exists i :: 0 <= i < |w.ledger| && w.ledger[i].closeId == id && w.ledger[i].fill.status == PARTIALLY_FILLED
  }

  /** A close of a position that is not open any more can execute only if it was booked from a partial fill. */
  predicate Tracked(w: World) {
    forall id :: id in w.posted && !IsOpen(w, w.posted[id]) ==> Spent(w, id) || PartlyBooked(w, id)
  }

  lemma StillPartlyBooked(w: World, u: World, id: Id)
    requires PartlyBooked(w, id) && w.ledger <= u.ledger
    ensures PartlyBooked(u, id)
  {
    var i :| 0 <= i < |w.ledger| && w.ledger[i].closeId == id && w.ledger[i].fill.status == PARTIALLY_FILLED;
    assert u.ledger[i] == w.ledger[i];
  }

  /** A clearing step leaves the close it booked, and nothing else of the position, able to execute:
      and that one only if it was booked from a partial fill. */
  lemma ClearedIsSpent(w: World, e: Event, id: Id)
    requires Inv(w) && Clears(w, e)
    requires id in Step(w, e).posted && Step(w, e).posted[id] == w.pos.value.id
    ensures Spent(Step(w, e), id) || PartlyBooked(Step(w, e), id)
  {
    var row, v := ClearedFrom(w, e);
    assert NoRace(v, v.pos.value);
    if !Retired(v, id) {
      assert id == row.closeId && v.ledger[|w.ledger|] == row;
    }
  }

  lemma StepLedgerGrows(w: World, e: Event)
    ensures w.ledger <= Step(w, e).ledger
  {
    StepBooks(w, e);
  }

  lemma SettleTracks(w: World, x: CycleInput, cut: nat)
    requires Inv(w) && Tracked(w) && w.pos.Some?
    ensures Tracked(Step(w, Settles(x, cut)))
  {
    var e := Settles(x, cut);
    var u := Step(w, e);
    StepBooks(w, e);
    StepLedgerGrows(w, e);
    CutSends(w, x, cut);
    StepStays(w.clock, w, e);
    forall id | id in u.posted && !IsOpen(u, u.posted[id]) ensures Spent(u, id) || PartlyBooked(u, id) {
      if u.posted[id] == w.pos.value.id {
        ClearedIsSpent(w, e, id);
      } else if PartlyBooked(w, id) {
        StillPartlyBooked(w, u, id);
      }
    }
  }

  lemma OpenTracks(w: World, entry: Entry)
    requires Inv(w) && Tracked(w)
    ensures Tracked(OpenLive(w, entry))
  {
    var u := OpenLive(w, entry);
    forall id | id in u.posted && !IsOpen(u, u.posted[id]) ensures Spent(u, id) || PartlyBooked(u, id) {
      assert !IsOpen(w, w.posted[id]);
      if PartlyBooked(w, id) { StillPartlyBooked(w, u, id); }
    }
  }

  lemma MoveTracks(w: World, u: World, wish: map<Id, Order>)
    requires Inv(w) && Tracked(w) && u == Step(w, VenueMoves(wish))
    ensures Tracked(u)
  {
    StepStays(w.clock, w, VenueMoves(wish));
    forall id | id in u.posted && !IsOpen(u, u.posted[id]) ensures Spent(u, id) || PartlyBooked(u, id) {
      assert !IsOpen(w, w.posted[id]);
      if PartlyBooked(w, id) { StillPartlyBooked(w, u, id); }
    }
  }

  lemma StepTracks(w: World, e: Event)
    requires Inv(w) && Tracked(w)
    ensures Tracked(Step(w, e))
  {
    match e
    case Opens(entry) => OpenTracks(w, entry);
    case VenueMoves(wish) => MoveTracks(w, Step(w, e), wish);
    case Settles(x, cut) =>
      if w.pos.Some? { SettleTracks(w, x, cut); } else { StepBooks(w, e); }
  }

  lemma {:induction false} RunTracks(w: World, events: seq<Event>)
    requires Inv(w) && Tracked(w)
    ensures Tracked(Run(w, events)) && Inv(Run(w, events))
    decreases |events|
  {
    if events != [] {
      StepTracks(w, events[0]);
      StepKeeps(w, events[0]);
      RunTracks(Step(w, events[0]), events[1..]);
    }
  }

  // ---- the theorems ----

  /** The order is the close persisted in the open position. */
  predicate Remembered(w: World, id: Id) {
    && w.pos.Some? && w.pos.value.pending.Some? && w.pos.value.pending.value.id == id
    && id in w.posted && w.posted[id] == w.pos.value.id
  }

  /** Nothing the venue could still execute is without a position tracking it. */
  ghost predicate NoOrphan(w: World) {
    forall id :: !Spent(w, id) ==> Remembered(w, id)
  }

  /** In every reachable state an order that can still execute, of any position, is the close persisted in the open
      position, or a row was booked from it, while it was partially filled, for a position that is closed. */
  lemma OrphansArePartlyBooked(events: seq<Event>, id: Id)
    requires !Spent(Run(START, events), id)
    ensures var w := Run(START, events);
            Remembered(w, id) || (id in w.posted && !IsOpen(w, w.posted[id]) && PartlyBooked(w, id))
  {
    var w := Run(START, events);
    RunTracks(START, events);
    assert id in w.venue && id in w.posted;
    if IsOpen(w, w.posted[id]) {
      assert NoRace(w, w.pos.value);
    }
  }

  /** The closed positions' partial fills have executed or died since. */
  predicate PartialsAreSpent(w: World) {
    forall i :: 0 <= i < |w.ledger| && w.ledger[i].fill.status == PARTIALLY_FILLED && !IsOpen(w, w.ledger[i].positionId) ==>
      Spent(w, w.ledger[i].closeId)
  }

  lemma RowIsRemembered(w: World, i: nat)
    requires Inv(w) && i < |w.ledger| && Remembered(w, w.ledger[i].closeId)
    ensures IsOpen(w, w.ledger[i].positionId)
  {
    assert Justified(w, w.ledger[i]);
  }

  /** Exactly: in every reachable state nothing that can execute is untracked if and only if every partial fill
      that was booked for a closed position has run to its end. */
  lemma NoOrphanExactly(events: seq<Event>)
    ensures NoOrphan(Run(START, events)) <==> PartialsAreSpent(Run(START, events))
  {
    var w := Run(START, events);
    RunKeeps(START, events);
    if NoOrphan(w) {
      forall i | 0 <= i < |w.ledger| && w.ledger[i].fill.status == PARTIALLY_FILLED && !IsOpen(w, w.ledger[i].positionId)
        ensures Spent(w, w.ledger[i].closeId)
      {
        if !Spent(w, w.ledger[i].closeId) { RowIsRemembered(w, i); }
      }
    }
    if PartialsAreSpent(w) {
      forall id | !Spent(w, id) ensures Remembered(w, id) {
        OrphansArePartlyBooked(events, id);
        if !Remembered(w, id) {
          PartlyBookedIsUnspent(w, id);
        }
      }
    }
  }

  lemma PartlyBookedIsUnspent(w: World, id: Id)
    requires Inv(w) && id in w.posted && !IsOpen(w, w.posted[id]) && PartlyBooked(w, id) && !Spent(w, id)
    ensures !PartialsAreSpent(w)
  {
    var i :| 0 <= i < |w.ledger| && w.ledger[i].closeId == id && w.ledger[i].fill.status == PARTIALLY_FILLED;
    assert Justified(w, w.ledger[i]);
  }

  /** If every booked fill was complete, no order that can execute is ever untracked, of this position or any other. */
  lemma NoOrphanWhenFilled(events: seq<Event>)
    requires forall i :: 0 <= i < |Run(START, events).ledger| ==> Run(START, events).ledger[i].fill.status == FILLED
    ensures NoOrphan(Run(START, events))
  {
    NoOrphanExactly(events);
  }

  lemma ClearingStep(w: World, e: Event, u: World, row: Row)
    requires Inv(w) && Clears(w, e) && u == Step(w, e) && ClosingRows(w, e) == [row]
    requires forall id :: id in w.posted && w.posted[id] != w.pos.value.id ==> Spent(w, id)
    ensures (forall id :: Spent(u, id)) <==> row.fill.status == FILLED
  {
    var row', v := ClearedFrom(w, e);
    StepKeeps(w, e);
    StepStays(w.clock, w, e);
    CutSends(w, e.input, e.cut);
    assert NoRace(v, v.pos.value) && row.closeId in v.venue && v.venue[row.closeId] == row.fill;
    assert Spent(u, row.closeId) <==> row.fill.status == FILLED;
    forall id | id != row.closeId ensures Spent(u, id) {
      if id in u.venue {
        assert id in u.posted;
        if u.posted[id] == w.pos.value.id { assert Retired(v, id); }
      }
    }
  }

  /** When a run settles a position and no other position had an order that could execute, the venue is left with
      none at all if and only if the fill that was booked was complete. */
  lemma ClearingLeavesNoneExactly(events: seq<Event>, e: Event) returns (u: World, row: Row)
    requires Clears(Run(START, events), e)
    requires var w := Run(START, events);
             forall id :: id in w.posted && w.posted[id] != w.pos.value.id ==> Spent(w, id)
    ensures u == Step(Run(START, events), e) && u.ledger == Run(START, events).ledger + [row]
    ensures (forall id :: Spent(u, id)) <==> row.fill.status == FILLED
  {
    var w := Run(START, events);
    RunKeeps(START, events);
    StepBooks(w, e);
    u, row := Step(w, e), ClosingRows(w, e)[0];
    ClearingStep(w, e, u, row);
  }

  // ---- a run that shows it ----

  lemma RunOfFour(w: World, a: Event, b: Event, c: Event, d: Event)
    ensures Run(w, [a, b, c, d]) == Step(Run(w, [a, b, c]), d)
  {
    assert [a, b, c, d][1..] == [b, c, d];
    RunOfThree(w, a, b, c);
    RunOfThree(Step(w, a), b, c, d);
  }

  /** After the half-filled close: a second position opens, and the first one's close executes its other half. */
  lemma SecondPosition(closed: World) returns (before: World, after: World)
    requires closed.pos.None? && closed.venue == map[1 := HALF] && closed.posted == map[1 := 0] && closed.clock == 2
    ensures before == Step(closed, Opens(ENTRY)) && after == Step(before, VenueMoves(map[1 := DONE]))
    ensures before.pos == Some(HELD.(id := 2)) && after.pos == before.pos
    ensures before.venue == closed.venue && before.posted == closed.posted && after.posted == closed.posted
    ensures after.venue == map[1 := DONE] && after.clock == 3 && after.ledger == before.ledger == closed.ledger
  {
    before := Step(closed, Opens(ENTRY));
    after := Step(before, VenueMoves(map[1 := DONE]));
    assert Abs(100.0 - 90.0) == 10.0;
    assert Evolve(before.venue, map[1 := DONE]) == map[1 := DONE];
  }

  lemma BothHalves(w: World)
    requires w.venue == map[1 := DONE] && w.posted == map[1 := 0] && w.clock == 3
    ensures Executed(w, 0) == 2.0
  {
    assert Part(w, 0, 0) == 0.0 && Part(w, 0, 1) == 2.0 && Part(w, 0, 2) == 0.0;
    assert ExecutedBelow(w, 0, 1) == 0.0 && ExecutedBelow(w, 0, 2) == 2.0;
  }

  lemma HalfClosed() returns (closed: World)
    ensures closed == Step(Step(START, Opens(ENTRY)), Settles(ManualClose(map[], HALF), 9))
    ensures closed.pos.None? && closed.venue == map[1 := HALF] && closed.posted == map[1 := 0] && closed.clock == 2
    ensures closed.ledger == [RowOf(HELD, 1, HALF, 7)]
  {
    OpensTwo();
    closed := ManualCloseFills(OPENED, HELD, map[], HALF);
    assert closed == Step(OPENED, Settles(ManualClose(map[], HALF), 9));
  }

  /** The half-filled close of the first position executes its other half while the second one is open:
      2.0 sold for a position booked at 1.0, and nothing in the position file says so. */
  lemma OrphanHitsTheNextPosition() returns (before: World, after: World)
    ensures before == Run(START, [Opens(ENTRY), Settles(ManualClose(map[], HALF), 9), Opens(ENTRY)])
    ensures after == Run(START, [Opens(ENTRY), Settles(ManualClose(map[], HALF), 9), Opens(ENTRY), VenueMoves(map[1 := DONE])])
    ensures before.pos == Some(HELD.(id := 2)) && 1 in before.posted && before.posted[1] == 0 && !Spent(before, 1)
    ensures after.pos == before.pos && after.ledger == [RowOf(HELD, 1, HALF, 7)]
    ensures after.ledger[0].quantity == 1.0 && Executed(after, 0) == 2.0
  {
    var open, close, move := Opens(ENTRY), Settles(ManualClose(map[], HALF), 9), VenueMoves(map[1 := DONE]);
    RunOfThree(START, open, close, open);
    RunOfFour(START, open, close, open, move);
    var closed := HalfClosed();
    before, after := SecondPosition(closed);
    BothHalves(after);
  }
}
