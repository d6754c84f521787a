/** Safety of the close protocol over every run, with a crash allowed between any two effects. */
module LiveCloseSafety {
  import opened Common
  import opened PositionKernel
  import opened RetryPolicy
  import opened LiveClose

  // ---- every effect keeps the invariant ----

  lemma StillJustified(w: World, w': World, r: Row)
    requires Justified(w, r)
    requires w.told <= w'.told
    requires forall id :: id in w.terms ==> id in w'.terms && w'.terms[id] == w.terms[id]
    requires forall id :: id in w.posted ==> id in w'.posted && w'.posted[id] == w.posted[id]
    ensures Justified(w', r)
  {
  }

  lemma StillBooked(w: World, w': World, id: Id)
    requires Booked(w, id) && w.ledger <= w'.ledger
    ensures Booked(w', id)
  {
  }

  /** An effect that touches neither ledger nor terms keeps the invariant
      when ids stay below the clock and the saved position stays sound. */
  lemma LedgerCarries(w: World, w': World)
    requires Inv(w) && IdsInUse(w')
    requires w'.ledger == w.ledger && w'.terms == w.terms && w.told <= w'.told
    requires forall id :: id in w.posted ==> id in w'.posted && w'.posted[id] == w.posted[id]
    requires w.pos.Some? ==> w'.pos.Some? && w'.pos.value.id == w.pos.value.id
    requires w'.pos.Some? ==> PositionSound(w', w'.pos.value)
    ensures Inv(w')
  {
    forall i | 0 <= i < |w'.ledger| ensures Justified(w', w'.ledger[i]) {
      StillJustified(w, w', w.ledger[i]);
    }
    forall id | id in w'.terms ensures IsOpen(w', id) || Booked(w', id) {
      if Booked(w, id) { StillBooked(w, w', id); }
    }
  }

  lemma EvolveRetires(w: World, w': World, wish: map<Id, Order>)
    requires w'.venue == Evolve(w.venue, wish)
    ensures forall id :: Retired(w, id) ==> Retired(w', id)
  {
  }

  lemma EvolveKeeps(w: World, wish: map<Id, Order>)
    requires Inv(w)
    ensures Inv(w.(venue := Evolve(w.venue, wish)))
  {
    var w' := w.(venue := Evolve(w.venue, wish));
    EvolveRetires(w, w', wish);
    LedgerCarries(w, w');
  }

  lemma TellKeeps(w: World, id: Id)
    requires Inv(w) && id in w.venue
    ensures Inv(w.(told := w.told + {Report(id, w.venue[id])}))
  {
    var w' := w.(told := w.told + {Report(id, w.venue[id])});
    if w'.pos.Some? {
      assert NoRace(w, w'.pos.value);
    }
    LedgerCarries(w, w');
  }

  /** Asking changes no file; a dead answer is final; a fill was really reported. */
  lemma AskFrame(w: World, id: Id, talk: Talk)
    ensures var (w', a) := Ask(w, id, talk);
            && w'.pos == w.pos && w'.ledger == w.ledger && w'.posted == w.posted && w'.terms == w.terms && w'.clock == w.clock
            && (IsDead(a) ==> Retired(w', id))
            && (IsFill(a) ==> id in w'.venue && Report(id, a.order.value) in w'.told)
  {
  }

  lemma AskKeeps(w: World, id: Id, talk: Talk)
    requires Inv(w)
    ensures Inv(Ask(w, id, talk).0)
  {
    EvolveKeeps(w, talk.wish);
    var v := w.(venue := Evolve(w.venue, talk.wish));
    if talk.link == Up && id in v.venue {
      TellKeeps(v, id);
    } else {
      assert Ask(w, id, talk).0 == v;
    }
  }

  lemma SaveKeeps(w: World, p: Position)
    requires Inv(w) && w.pos.Some? && w.pos.value.id == p.id && PositionSound(w, p)
    ensures Inv(Save(w, p))
  {
    LedgerCarries(w, Save(w, p));
  }

  /** Writing the fresh id ahead: allowed only because every earlier close is retired. */
  lemma WriteAheadKeeps(w: World, p: Position, reason: Reason)
    requires Inv(w) && w.pos.Some? && w.pos.value.id == p.id && PositionSound(w, p) && p.pending.None?
    ensures var w' := Save(w, p.(pending := Some(Pending(w.clock, reason)))).(clock := w.clock + 1);
            Inv(w') && w.clock !in w'.posted && w.clock !in w'.venue
  {
    LedgerCarries(w, Save(w, p.(pending := Some(Pending(w.clock, reason)))).(clock := w.clock + 1));
  }

  lemma PostKeeps(w: World, id: Id, p: Position, t: PostTalk)
    requires Inv(w) && w.pos == Some(p) && id < w.clock && id !in w.posted
    requires p.pending.Some? && p.pending.value.id == id
    ensures var w' := PostClose(w, id, p.id, t);
            Inv(w') && w'.pos == w.pos && (!Lands(t) ==> Retired(w', id))
  {
    var w' := PostClose(w, id, p.id, t);
    forall i | Retired(w, i) && i != id ensures Retired(w', i) {
    }
    LedgerCarries(w, w');
  }

  lemma BookingKeeps(w: World, p: Position, id: Id, fill: Order, day: int)
    requires Inv(w) && w.pos.Some? && w.pos.value.id == p.id && PositionSound(w, p)
    requires id in w.posted && w.posted[id] == p.id && Report(id, fill) in w.told
    requires Filled(fill.status) && fill.avgPrice > 0.0
    ensures var w' := w.(ledger := w.ledger + [RowOf(p, id, fill, day)]); Inv(w') && Booked(w', p.id)
  {
    var row := RowOf(p, id, fill, day);
    var w' := w.(ledger := w.ledger + [row]);
    assert Justified(w', row);
    forall i | 0 <= i < |w'.ledger| ensures Justified(w', w'.ledger[i]) {
      if i < |w.ledger| { StillJustified(w, w', w.ledger[i]); }
    }
    assert w'.ledger[|w.ledger|].positionId == p.id;
    forall i | i in w'.terms ensures IsOpen(w', i) || Booked(w', i) {
      if Booked(w, i) { StillBooked(w, w', i); }
    }
    assert PositionSound(w', w'.pos.value) by { assert NoRace(w, w.pos.value); }
  }

  lemma ClearingKeeps(w: World)
    requires Inv(w) && w.pos.Some? && Booked(w, w.pos.value.id)
    ensures Inv(w.(pos := None))
  {
    var w' := w.(pos := None);
    forall i | 0 <= i < |w'.ledger| ensures Justified(w', w'.ledger[i]) {
      StillJustified(w, w', w.ledger[i]);
    }
    forall i | i in w'.terms ensures Booked(w', i) {
      StillBooked(w, w', i);
    }
  }

  lemma AllInvSnoc(trace: seq<World>, w: World)
    requires AllInv(trace) && Inv(w)
    ensures AllInv(trace + [w])
  {
    assert (trace + [w])[..|trace|] == trace;
  }

  lemma AllInvPair(a: World, b: World)
    requires Inv(a) && Inv(b)
    ensures AllInv([a, b])
  {
    AllInvSnoc([], a);
    assert [] + [a] == [a] && [a] + [b] == [a, b];
    AllInvSnoc([a], b);
  }

  lemma EndOfBoth(a: seq<World>, b: seq<World>)
    requires b != []
    ensures a + b == (a + b[..|b| - 1]) + [b[|b| - 1]]
  {
  }

  lemma {:induction false} AllInvConcat(a: seq<World>, b: seq<World>)
    requires AllInv(a) && AllInv(b)
    ensures AllInv(a + b)
  {
    if b == [] {
      assert a + b == a;
    } else {
      var init, last := b[..|b| - 1], b[|b| - 1];
      AllInvConcat(a, init);
      AllInvSnoc(a + init, last);
      EndOfBoth(a, b);
    }
  }

  lemma {:induction false} AllInvCut(w: World, trace: seq<World>, cut: nat)
    requires Inv(w) && AllInv(trace)
    ensures Inv(Cut(w, trace, cut))
  {
    if cut < |trace| {
      if cut == |trace| - 1 {
        assert trace[..cut] == trace[..|trace| - 1];
      } else {
        assert trace[..|trace| - 1][..cut] == trace[..cut];
      }
      AllInvCut(w, trace[..|trace| - 1], cut);
    }
  }

  lemma SingleInv(w: World)
    requires Inv(w)
    ensures AllInv([w])
  {
    assert [w][..0] == [];
  }

  /** A close that never reached the venue is dropped again: nothing of the position is left that could race. */
  lemma RetreatKeeps(w1: World, p: Position, p': Position)
    requires Inv(w1) && w1.pos == Some(p') && p == p'.(pending := None)
    requires p'.pending.Some? && Retired(w1, p'.pending.value.id)
    ensures Inv(Save(w1, p))
  {
    assert NoRace(w1, p');
    SaveKeeps(w1, p);
  }

  lemma FillKeeps(w: World, p: Position, id: Id, fill: Order, day: int)
    requires Inv(w) && w.pos.Some? && w.pos.value.id == p.id && PositionSound(w, p)
    requires id in w.posted && w.posted[id] == p.id && Report(id, fill) in w.told
    requires Filled(fill.status) && fill.avgPrice > 0.0
    ensures AllInv(SettleFromFill(w, p, id, fill, day).trace)
  {
    var booked := w.(ledger := w.ledger + [RowOf(p, id, fill, day)]);
    BookingKeeps(w, p, id, fill, day);
    ClearingKeeps(booked);
    AllInvPair(booked, booked.(pos := None));
  }

  // ---- every world of a cycle ----

  /** What a live pending id refers to. */
  predicate PendingIs(w: World, p: Position, id: Id) {
    w.pos == Some(p) && p.pending.Some? && p.pending.value.id == id
  }

  lemma DeadPendingKeeps(w1: World, p: Position, id: Id)
    requires Inv(w1) && PendingIs(w1, p, id) && Retired(w1, id)
    ensures Inv(Save(w1, p.(pending := None)))
  {
    RetreatKeeps(w1, p.(pending := None), p);
  }

  lemma FilledPendingKeeps(w1: World, p: Position, id: Id, fill: Order, day: int)
    requires Inv(w1) && PendingIs(w1, p, id) && id in w1.venue && Report(id, fill) in w1.told
    requires Filled(fill.status) && fill.avgPrice > 0.0
    ensures AllInv(SettleFromFill(w1, p, id, fill, day).trace)
  {
    assert id in w1.posted;
    FillKeeps(w1, p, id, fill, day);
  }

  lemma ResolveKeeps(w: World, x: CycleInput)
    requires Inv(w) && w.pos.Some?
    ensures var (effects, live) := ResolvePending(w, w.pos.value, x);
            && AllInv(effects.trace)
            && (live.Some? ==> live.value.pending.None? && live.value.id == w.pos.value.id &&
                               Last(w, effects.trace).pos == live && Inv(Last(w, effects.trace)))
  {
    var p := w.pos.value;
    if p.pending.Some? {
      var id := p.pending.value.id;
      AskKeeps(w, id, x.pendingTalk);
      AskFrame(w, id, x.pendingTalk);
      var asked := Ask(w, id, x.pendingTalk);
      var w1, a := asked.0, asked.1;
      SingleInv(w1);
      if IsFill(a) {
        FilledPendingKeeps(w1, p, id, a.order.value, x.day);
        AllInvConcat([w1], SettleFromFill(w1, p, id, a.order.value, x.day).trace);
      } else if IsDead(a) {
        DeadPendingKeeps(w1, p, id);
        AllInvPair(w1, Save(w1, p.(pending := None)));
      } else {
        SaveKeeps(w1, p);
        AllInvPair(w1, Save(w1, p));
      }
    }
  }

  lemma SubmitKeeps(w: World, id: Id, p: Position, x: CycleInput)
    requires Inv(w) && w.pos == Some(p) && id < w.clock && id !in w.posted && id !in w.venue
    requires p.pending.Some? && p.pending.value.id == id
    ensures var (sent, performed) := SubmitClose(w, id, p, x);
            var w1 := Last(w, sent);
            && AllInv(sent) && Inv(w1) && w1.pos == Some(p)
            && (!performed ==> Retired(w1, id))
            && (performed ==> id in w1.posted && w1.posted[id] == p.id)
  {
    if x.guardApproves && p.quantity > 0.0 {
      PostKeeps(w, id, p, x.post);
      var w1 := PostClose(w, id, p.id, x.post);
      if IsAmbiguousSubmit(x.post.reply) {
        AskKeeps(w1, id, x.resolveTalk);
        AskFrame(w1, id, x.resolveTalk);
      } else {
        AmbiguousUnlessProven(x.post.reply);
      }
    }
  }

  lemma ReadBackKeeps(w: World, p: Position, id: Id, x: CycleInput)
    requires Inv(w) && w.pos == Some(p) && id in w.posted && w.posted[id] == p.id
    ensures AllInv(ReadBack(w, p, id, x).trace)
  {
    AskKeeps(w, id, x.readBack);
    AskFrame(w, id, x.readBack);
    var asked := Ask(w, id, x.readBack);
    var w1, a := asked.0, asked.1;
    SingleInv(w1);
    if IsFill(a) {
      FillKeeps(w1, p, id, a.order.value, x.day);
      AllInvConcat([w1], SettleFromFill(w1, p, id, a.order.value, x.day).trace);
    } else {
      SaveKeeps(w1, p);
      AllInvPair(w1, Save(w1, p));
    }
  }

  lemma TailKeeps(w1: World, p: Position, p': Position, id: Id, performed: bool, tail: Effects, x: CycleInput)
    requires Inv(w1) && w1.pos == Some(p') && p == p'.(pending := None) && p'.pending.Some? && p'.pending.value.id == id
    requires if performed then id in w1.posted && w1.posted[id] == p.id else Retired(w1, id)
    requires tail == if performed then ReadBack(w1, p', id, x) else Effects([Save(w1, p)], CloseFailed)
    ensures AllInv(tail.trace)
  {
    if performed {
      ReadBackKeeps(w1, p', id, x);
    } else {
      RetreatKeeps(w1, p, p');
      SingleInv(Save(w1, p));
    }
  }

  lemma FreshKeeps(w: World, p: Position, reason: Reason, x: CycleInput)
    requires Inv(w) && w.pos.Some? && w.pos.value.id == p.id && PositionSound(w, p) && p.pending.None?
    ensures AllInv(FreshClose(w, p, reason, x).trace)
  {
    var p', ahead, sent, performed, w1, tail := FreshCloseParts(w, p, reason, x);
    WriteAheadKeeps(w, p, reason);
    SubmitKeeps(ahead, w.clock, p', x);
    TailKeeps(w1, p, p', w.clock, performed, tail, x);
    SingleInv(ahead);
    AllInvConcat([ahead], sent);
    AllInvConcat([ahead] + sent, tail.trace);
  }

  lemma DecideKeeps(w: World, p: Position, x: CycleInput)
    requires Inv(w) && w.pos == Some(p) && p.pending.None?
    ensures AllInv(Decide(w, p, x).trace)
  {
    var (holding, reason) := ExitSignal(p.plan, p.holding, x.tick);
    var p' := p.(holding := holding);
    assert PositionSound(w, p') by { assert NoRace(w, p); }
    if reason.Some? {
      FreshKeeps(w, p', reason.value, x);
    } else {
      SaveKeeps(w, p');
    }
  }

  /** Every world a settle cycle passes through satisfies the invariant. */
  lemma CycleKeeps(w: World, x: CycleInput)
    requires Inv(w)
    ensures AllInv(SettleCycle(w, x).trace)
  {
    if w.pos.Some? {
      var resolved, live, w1, decided := CycleParts(w, x);
      ResolveKeeps(w, x);
      if live.Some? {
        DecideKeeps(w1, live.value, x);
        AllInvConcat(resolved.trace, decided.trace);
      }
    }
  }

  lemma OpenKeeps(w: World, e: Entry)
    requires Inv(w)
    ensures Inv(OpenLive(w, e))
  {
    var w' := OpenLive(w, e);
    if w' != w {
      assert IdsInUse(w');
      assert NoRace(w', w'.pos.value);
      forall i | 0 <= i < |w'.ledger| ensures Justified(w', w'.ledger[i]) {
        StillJustified(w, w', w.ledger[i]);
      }
      forall i | i in w'.terms ensures IsOpen(w', i) || Booked(w', i) {
        if i in w.terms { StillBooked(w, w', i); }
      }
    }
  }

  lemma UnbookedIsLost(w: World, e: Entry)
    requires Inv(w) && w.pos.Some? && Opening(e) && !Booked(w, w.pos.value.id)
    ensures !Inv(OpenFrom(w, e))
  {
    var id, u := w.pos.value.id, OpenFrom(w, e);
    assert id in u.terms && u.ledger == w.ledger && u.pos.value.id == w.clock;
    assert !IsOpen(u, id) && !Booked(u, id);
  }

  lemma OverwritingIsClearing(w: World, e: Entry)
    requires Opening(e)
    ensures OpenFrom(w, e) == OpenLive(w.(pos := None), e)
  {
  }

  /** Why the caller must look first: opening over an open position keeps the invariant
      if and only if the position it overwrites already has its row. */
  lemma OpeningOverAnOpenPosition(w: World, e: Entry)
    requires Inv(w) && w.pos.Some? && Opening(e)
    ensures Inv(OpenFrom(w, e)) <==> Booked(w, w.pos.value.id)
  {
    if Booked(w, w.pos.value.id) {
      ClearingKeeps(w);
      OpenKeeps(w.(pos := None), e);
      OverwritingIsClearing(w, e);
    } else {
      UnbookedIsLost(w, e);
    }
  }

  lemma StepKeeps(w: World, e: Event)
    requires Inv(w)
    ensures Inv(Step(w, e))
  {
    match e
    case Opens(entry) => OpenKeeps(w, entry);
    case VenueMoves(wish) => EvolveKeeps(w, wish);
    case Settles(x, cut) =>
      CycleKeeps(w, x);
      AllInvCut(w, SettleCycle(w, x).trace, cut);
  }

  lemma {:induction false} RunKeeps(w: World, events: seq<Event>)
    requires Inv(w)
    ensures Inv(Run(w, events))
    decreases |events|
  {
    if events != [] {
      StepKeeps(w, events[0]);
      RunKeeps(Step(w, events[0]), events[1..]);
    }
  }

  // ---- the theorems ----

  /** In every reachable state, mid-cycle crashes included: a close of the open position that the
      venue could still fill or has filled is the one whose id is persisted in the position. */
  lemma NoSecondCloseRaced(events: seq<Event>, p: Position, id: Id)
    requires var w := Run(START, events);
             w.pos == Some(p) && id in w.posted && w.posted[id] == p.id &&
             id in w.venue && !Dead(w.venue[id].status)
    ensures p.pending.Some? && p.pending.value.id == id
  {
    RunKeeps(START, events);
    assert NoRace(Run(START, events), p);
  }

  /** No close of a position is fabricated or lost: in every reachable state each ledger row is priced from a
      reported fill of a close of its own position, and every position no longer open has a row. */
  lemma NoFabricatedNoLostOutcome(events: seq<Event>)
    ensures var w := Run(START, events);
            && (forall i :: 0 <= i < |w.ledger| ==> Justified(w, w.ledger[i]))
            && (forall id :: id in w.terms && !IsOpen(w, id) ==> Booked(w, id))
  {
    RunKeeps(START, events);
  }

  // ---- every POST is behind its write-ahead ----

  /** An effect POSTs nothing, or POSTs the id the position file already holds,
      at a moment when every earlier close of the position is retired. */
  predicate GuardedEffect(w: World, w': World) {
    w'.posted == w.posted ||
    (w.pos.Some? && w.pos.value.pending.Some? &&
     (forall id :: id in w.posted && w.posted[id] == w.pos.value.id ==> Retired(w, id)) &&
     w'.posted == w.posted[w.pos.value.pending.value.id := w.pos.value.id])
  }

  /** Every effect of a trace that starts in w is guarded. */
  predicate Guarded(w: World, trace: seq<World>) {
    trace == [] ||
    (GuardedEffect(Last(w, trace[..|trace| - 1]), trace[|trace| - 1]) && Guarded(w, trace[..|trace| - 1]))
  }

  lemma GuardedSnoc(w: World, trace: seq<World>, next: World)
    requires Guarded(w, trace) && GuardedEffect(Last(w, trace), next)
    ensures Guarded(w, trace + [next])
  {
    assert (trace + [next])[..|trace|] == trace;
  }

  lemma {:induction false} GuardedConcat(w: World, a: seq<World>, b: seq<World>)
    requires Guarded(w, a) && Guarded(Last(w, a), b)
    ensures Guarded(w, a + b)
  {
    if b == [] {
      assert a + b == a;
    } else {
      var init, last := b[..|b| - 1], b[|b| - 1];
      GuardedConcat(w, a, init);
      LastOfBoth(w, a, init);
      GuardedSnoc(w, a + init, last);
      EndOfBoth(a, b);
    }
  }

  lemma {:induction false} QuietIsGuarded(w: World, trace: seq<World>)
    requires forall i :: 0 <= i < |trace| ==> trace[i].posted == w.posted
    ensures Guarded(w, trace)
  {
    if trace != [] {
      QuietIsGuarded(w, trace[..|trace| - 1]);
    }
  }

  lemma OneGuarded(w: World, next: World)
    requires GuardedEffect(w, next)
    ensures Guarded(w, [next])
  {
    GuardedSnoc(w, [], next);
    assert [] + [next] == [next];
  }

  lemma SubmitGuarded(w: World, id: Id, p: Position, x: CycleInput)
    requires w.pos == Some(p) && p.pending.Some? && p.pending.value.id == id
    requires forall i :: i in w.posted && w.posted[i] == p.id ==> Retired(w, i)
    ensures Guarded(w, SubmitClose(w, id, p, x).0)
  {
    if x.guardApproves && p.quantity > 0.0 {
      var w1 := PostClose(w, id, p.id, x.post);
      OneGuarded(w, w1);
      if IsAmbiguousSubmit(x.post.reply) {
        var w2 := Ask(w1, id, x.resolveTalk).0;
        assert w2.posted == w1.posted;
        GuardedSnoc(w, [w1], w2);
        assert [w1] + [w2] == [w1, w2];
      }
    }
  }

  lemma ReadBackGuarded(w: World, p: Position, id: Id, x: CycleInput)
    ensures Guarded(w, ReadBack(w, p, id, x).trace)
  {
    assert Ask(w, id, x.readBack).0.posted == w.posted;
    QuietIsGuarded(w, ReadBack(w, p, id, x).trace);
  }

  lemma AheadGuarded(w: World, p: Position, p': Position, ahead: World, x: CycleInput)
    requires p.pending.None? && NoRace(w, p) && p'.id == p.id && p'.pending.Some? && p'.pending.value.id == w.clock
    requires ahead == Save(w, p').(clock := w.clock + 1)
    ensures Guarded(ahead, SubmitClose(ahead, w.clock, p', x).0)
  {
    forall i | i in ahead.posted && ahead.posted[i] == p.id ensures Retired(ahead, i) {
      assert Retired(w, i);
    }
    SubmitGuarded(ahead, w.clock, p', x);
  }

  lemma FreshGuarded(w: World, p: Position, reason: Reason, x: CycleInput)
    requires p.pending.None? && NoRace(w, p)
    ensures Guarded(w, FreshClose(w, p, reason, x).trace)
  {
    var p', ahead, sent, performed, w1, tail := FreshCloseParts(w, p, reason, x);
    OneGuarded(w, ahead);
    AheadGuarded(w, p, p', ahead, x);
    GuardedConcat(w, [ahead], sent);
    LastOfBoth(w, [ahead], sent);
    if performed {
      ReadBackGuarded(w1, p', w.clock, x);
    } else {
      OneGuarded(w1, Save(w1, p));
    }
    GuardedConcat(w, [ahead] + sent, tail.trace);
  }

  lemma DecideGuarded(w: World, p: Position, x: CycleInput)
    requires w.pos.Some? && w.pos.value.id == p.id && p.pending.None? && NoRace(w, p)
    ensures Guarded(w, Decide(w, p, x).trace)
  {
    var (holding, reason) := ExitSignal(p.plan, p.holding, x.tick);
    var p' := p.(holding := holding);
    assert NoRace(w, p');
    if reason.Some? {
      FreshGuarded(w, p', reason.value, x);
    } else {
      OneGuarded(w, Save(w, p'));
    }
  }

  lemma ResolveGuarded(w: World, p: Position, x: CycleInput)
    ensures Guarded(w, ResolvePending(w, p, x).0.trace)
  {
    if p.pending.Some? {
      assert Ask(w, p.pending.value.id, x.pendingTalk).0.posted == w.posted;
    }
    QuietIsGuarded(w, ResolvePending(w, p, x).0.trace);
  }

  lemma CycleGuarded(w: World, x: CycleInput)
    requires Inv(w)
    ensures Guarded(w, SettleCycle(w, x).trace)
  {
    if w.pos.Some? {
      var resolved, live, w1, decided := CycleParts(w, x);
      ResolveKeeps(w, x);
      ResolveGuarded(w, w.pos.value, x);
      if live.Some? {
        DecideGuarded(w1, live.value, x);
        GuardedConcat(w, resolved.trace, decided.trace);
      }
    }
  }

  /** When a close is POSTed its id is already in the position file and every
      earlier close of the position is dead: in every cycle of every run. */
  lemma PostedBehindWriteAhead(events: seq<Event>, x: CycleInput)
    ensures Guarded(Run(START, events), SettleCycle(Run(START, events), x).trace)
  {
    RunKeeps(START, events);
    CycleGuarded(Run(START, events), x);
  }
}
