/** The live position kernel as it runs: the position file and the ledger are updated
    in place, one write at a time. `history` records the world after every effect. */
module LiveKernel {
  import opened Common
  import opened PositionKernel
  import opened RetryPolicy
  import opened LiveClose

  class Kernel {
    var pos: Option<Position>        // live_position_v1.json
    var ledger: seq<Row>             // live_outcome_registry
    var venue: map<Id, Order>        // the exchange's close orders
    var clock: nat                   // source of fresh client order ids and position ids
    ghost var posted: map<Id, Id>
    ghost var told: set<Report>
    ghost var terms: map<Id, (Plan, real)>
    ghost var history: seq<World>

    ghost function State(): World
      reads this
    {
      World(pos, ledger, venue, posted, told, terms, clock)
    }

    constructor ()
      ensures State() == START && history == []
    {
      pos, ledger, venue, clock := None, [], map[], 0;
      posted, told, terms, history := map[], {}, map[], [];
    }

    method SavePosition(p: Position)
      modifies this
      ensures State() == Save(old(State()), p) && history == old(history) + [State()]
    {
      pos := Some(p);
      history := history + [State()];
    }

    method RecordLiveOutcome(row: Row)
      modifies this
      ensures State() == old(State()).(ledger := old(ledger) + [row]) && history == old(history) + [State()]
    {
      ledger := ledger + [row];
      history := history + [State()];
    }

    method ClearPosition()
      modifies this
      ensures State() == old(State()).(pos := None) && history == old(history) + [State()]
    {
      pos := None;
      history := history + [State()];
    }

    method QueryOrder(id: Id, talk: Talk) returns (a: Answer)
      modifies this
      ensures (State(), a) == Ask(old(State()), id, talk) && history == old(history) + [State()]
    {
      venue := Evolve(venue, talk.wish);
      match talk.link {
        case Up =>
          if id in venue {
            told := told + {Report(id, venue[id])};
            a := Found(Some(venue[id]));
          } else {
            a := NotFound;
          }
        case Garbled => a := Found(None);
        case Down => a := NoAnswer;
      }
      history := history + [State()];
    }

    method PostOrder(id: Id, positionId: Id, t: PostTalk)
      modifies this
      ensures State() == PostClose(old(State()), id, positionId, t) && history == old(history) + [State()]
    {
      venue := Evolve(venue, t.wish);
      if Lands(t) {
        venue := venue[id := t.order];
      }
      posted := posted[id := positionId];
      history := history + [State()];
    }

    /** _settle_from_fill. */
    method SettleFill(p: Position, closeId: Id, fill: Order, day: int) returns (outcome: Outcome)
      modifies this
      ensures outcome == SettleFromFill(old(State()), p, closeId, fill, day).outcome
      ensures history == old(history) + SettleFromFill(old(State()), p, closeId, fill, day).trace
      ensures State() == Last(old(State()), SettleFromFill(old(State()), p, closeId, fill, day).trace)
    {
      var quantity := fill.executedQty;
      if quantity == 0.0 {
        quantity := p.quantity;
      }
      var realized := RealizedPnl(p.plan, fill.avgPrice, quantity);
      var row := Row(p.id, closeId, fill, quantity, p.plan.entry, fill.avgPrice, realized, day);
      RecordLiveOutcome(row);
      ClearPosition();
      outcome := Closed(row);
    }

    /** _resolve_pending_close: None decides the cycle, Some goes on to a fresh decision. */
    method ResolvePendingClose(p: Position, x: CycleInput) returns (outcome: Outcome, live: Option<Position>)
      modifies this
      ensures var (e, live') := ResolvePending(old(State()), p, x);
              && outcome == e.outcome && live == live' && history == old(history) + e.trace
              && State() == Last(old(State()), e.trace)
    {
      if p.pending.None? {
        return NothingToDo, Some(p);
      }
      var a := QueryOrder(p.pending.value.id, x.pendingTalk);
      if a.Found? {
        if a.order.Some? && Filled(a.order.value.status) && a.order.value.avgPrice > 0.0 {
          outcome := SettleFill(p, p.pending.value.id, a.order.value, x.day);
          return outcome, None;
        }
        if a.order.Some? && Dead(a.order.value.status) {
          SavePosition(p.(pending := None));
          return NothingToDo, Some(p.(pending := None));
        }
        SavePosition(p);
        return ClosePending, None;
      }
      if a.NotFound? {
        SavePosition(p.(pending := None));
        return NothingToDo, Some(p.(pending := None));
      }
      SavePosition(p);
      return CloseUnconfirmed, None;
    }

    /** submit_live_close_order: true when the close may be live at the venue. */
    method SubmitLiveClose(id: Id, p: Position, x: CycleInput) returns (performed: bool)
      modifies this
      ensures var (sent, performed') := SubmitClose(old(State()), id, p, x);
              && performed == performed' && history == old(history) + sent && State() == Last(old(State()), sent)
    {
      if !x.guardApproves || p.quantity <= 0.0 {
        return false;
      }
      PostOrder(id, p.id, x.post);
      if !IsAmbiguousSubmit(x.post.reply) {
        return Submitted(x.post.reply);
      }
      var a := QueryOrder(id, x.resolveTalk);
      performed := !a.NotFound?;
    }

    /** Read the close fill back: book it, or keep the same id pending. */
    method ReadBackClose(p: Position, id: Id, x: CycleInput) returns (outcome: Outcome)
      modifies this
      ensures outcome == ReadBack(old(State()), p, id, x).outcome
      ensures history == old(history) + ReadBack(old(State()), p, id, x).trace
      ensures State() == Last(old(State()), ReadBack(old(State()), p, id, x).trace)
    {
      var a := QueryOrder(id, x.readBack);
      if a.Found? && a.order.Some? && Filled(a.order.value.status) && a.order.value.avgPrice > 0.0 {
        outcome := SettleFill(p, id, a.order.value, x.day);
      } else {
        SavePosition(p);
        outcome := CloseUnconfirmed;
      }
    }

    /** The close itself: write the id ahead, submit, then read back or retire the id. */
    method CloseForReal(p: Position, reason: Reason, x: CycleInput) returns (outcome: Outcome)
      modifies this
      ensures outcome == FreshClose(old(State()), p, reason, x).outcome
      ensures history == old(history) + FreshClose(old(State()), p, reason, x).trace
      ensures State() == Last(old(State()), FreshClose(old(State()), p, reason, x).trace)
    {
      ghost var w := State();
      var id := clock;
      clock := clock + 1;
      var marked := p.(pending := Some(Pending(id, reason)));
      SavePosition(marked);
      ghost var ahead := State();
      var performed := SubmitLiveClose(id, marked, x);
      ghost var p', ahead', sent, performed', w1, tail := FreshCloseParts(w, p, reason, x);
      InSequence(w, old(history), [ahead], sent);
      ghost var submitted := State();
      if performed {
        outcome := ReadBackClose(marked, id, x);
        InSequence(w, old(history), [ahead] + sent, ReadBack(submitted, marked, id, x).trace);
      } else {
        SavePosition(p);
        outcome := CloseFailed;
        InSequence(w, old(history), [ahead] + sent, [Save(submitted, p)]);
      }
    }

    /** The exit decision of this cycle, acted on. */
    method DecideExit(live: Position, x: CycleInput) returns (outcome: Outcome)
      modifies this
      ensures outcome == Decide(old(State()), live, x).outcome
      ensures history == old(history) + Decide(old(State()), live, x).trace
      ensures State() == Last(old(State()), Decide(old(State()), live, x).trace)
    {
      var p := live;
      var signal := ExitSignal(p.plan, p.holding, x.tick);
      p := p.(holding := signal.0);
      if signal.1.None? {
        SavePosition(p);
        outcome := NothingToDo;
      } else {
        outcome := CloseForReal(p, signal.1.value, x);
      }
    }

    /** settle_open_live_position: one call leaves behind exactly the worlds of SettleCycle. */
    method Settle(x: CycleInput) returns (outcome: Outcome)
      modifies this
      ensures outcome == SettleCycle(old(State()), x).outcome
      ensures history == old(history) + SettleCycle(old(State()), x).trace
      ensures State() == Last(old(State()), SettleCycle(old(State()), x).trace)
    {
      if pos.None? {
        return NothingToDo;
      }
      ghost var w := State();
      var live;
      outcome, live := ResolvePendingClose(pos.value, x);
      if live.Some? {
        ghost var mid := State();
        outcome := DecideExit(live.value, x);
        ghost var resolved, live', w1, decided := CycleParts(w, x);
        InSequence(w, old(history), resolved.trace, decided.trace);
      }
    }

    /** open_from_live_execution */
    method Open(e: Entry) returns (isOpened: bool)
      modifies this
      ensures isOpened == FilledEntry(e)
      ensures isOpened ==> pos.Some? && TracksFill(pos.value, e) && pos.value.id == old(clock)
      ensures State() == OpenFrom(old(State()), e) && history == old(history)
    {
      var price := if e.avgPrice != 0.0 then e.avgPrice else e.intentPrice;
      var qty := if e.executedQty != 0.0 then e.executedQty else e.intentQty;
      if !e.performed || !e.reconciled || !Filled(e.status) || price <= 0.0 || qty <= 0.0 {
        return false;
      }
      var plan := Plan(e.direction, price, e.stopLoss, e.takeProfit, RiskOf(price, e.stopLoss));
      pos := Some(Position(clock, plan, qty, FRESH, None));
      terms := terms[clock := (plan, qty)];
      clock := clock + 1;
      isOpened := true;
    }

    /** The live branch of open_position_if_filled: the kernel is asked only when nothing is open. */
    method OpenIfFilled(e: Entry) returns (isOpened: bool)
      modifies this
      ensures isOpened == (old(pos).None? && FilledEntry(e))
      ensures isOpened ==> pos.Some? && TracksFill(pos.value, e) && pos.value.id == old(clock)
      ensures State() == OpenLive(old(State()), e) && history == old(history)
    {
      if pos.Some? {
        return false;
      }
      isOpened := Open(e);
    }
  }

  /** Effects in sequence. */
  lemma InSequence(w: World, before: seq<World>, a: seq<World>, b: seq<World>)
    ensures Last(Last(w, a), b) == Last(w, a + b)
    ensures before + a + b == before + (a + b)
  {
  }
}
