/** The close protocol of the live position kernel as a system of persisted effects
    (execution/live_position_kernel.py, execution/live_strategy_execution.py).

    A settle cycle is the sequence of worlds it leaves behind, one for each file
    write and each venue call. A crash is a cut of that sequence at any length. */
module LiveClose {
  import opened Common
  import opened PositionKernel
  import opened RetryPolicy

  type Id = nat

  datatype Status = NEW | PARTIALLY_FILLED | FILLED | CANCELED | REJECTED | EXPIRED | OTHER

  datatype Order = Order(status: Status, avgPrice: real, executedQty: real)

  /** A truthful order state the venue reported. */
  datatype Report = Report(id: Id, order: Order)

  datatype Pending = Pending(id: Id, reason: Reason)

  datatype Position = Position(id: Id, plan: Plan, quantity: real, holding: Holding, pending: Option<Pending>)

  /** One row of the live outcome registry. `closeId` and `fill` are history: the
      close order it was priced from, as the venue reported it. */
  datatype Row = Row(positionId: Id, closeId: Id, fill: Order, quantity: real,
                     openPrice: real, closePrice: real, pnl: real, day: int)

  /** The persisted position and ledger, the venue's book of close orders, and history:
      every close POSTed (and for which position), every order state the venue told us,
      and the terms of every position opened. `clock` is above every id in use. */
  datatype World = World(pos: Option<Position>, ledger: seq<Row>, venue: map<Id, Order>,
                         posted: map<Id, Id>, told: set<Report>,
                         terms: map<Id, (Plan, real)>, clock: nat)

  const START := World(None, [], map[], map[], {}, map[], 0)

  predicate Filled(s: Status) { s == FILLED || s == PARTIALLY_FILLED }

  predicate Dead(s: Status) { s == CANCELED || s == Status.REJECTED || s == EXPIRED }

  // ---- the venue ----

  /** The venue moves its orders on: a dead order stays as it is, a filled one stays filled. */
  function Evolve(venue: map<Id, Order>, wish: map<Id, Order>): map<Id, Order> {
    map id | id in venue ::
      if id in wish && !Dead(venue[id].status) && (venue[id].status == FILLED ==> wish[id].status == FILLED)
      then wish[id] else venue[id]
  }

  datatype Talk = Talk(wish: map<Id, Order>, link: Link)

  datatype Answer = Found(order: Option<Order>) | NotFound | NoAnswer

  function Ask(w: World, id: Id, talk: Talk): (World, Answer) {
    var w' := w.(venue := Evolve(w.venue, talk.wish));
    match talk.link
    case Up =>
      if id in w'.venue then (w'.(told := w'.told + {Report(id, w'.venue[id])}), Found(Some(w'.venue[id])))
      else (w', NotFound)
    case Garbled => (w', Found(None))
    case Down => (w', NoAnswer)
  }

  /** A POST in flight: whether it reached the book (if the reply leaves that open) and as what order. */
  datatype PostTalk = PostTalk(wish: map<Id, Order>, reply: PostReply, lands: bool, order: Order)

  predicate Lands(t: PostTalk) {
    Submitted(t.reply) || (t.lands && !ProvesNoOrder(t.reply))
  }

  function PostClose(w: World, id: Id, positionId: Id, t: PostTalk): World {
    var venue := Evolve(w.venue, t.wish);
    w.(venue := if Lands(t) then venue[id := t.order] else venue, posted := w.posted[id := positionId])
  }

  function ExistenceOf(a: Answer): Existence {
    match a
    case Found(_) => Exists
    case NotFound => Absent
    case NoAnswer => Unresolved
  }

  // ---- one settle cycle ----

  datatype CycleInput = CycleInput(tick: Tick, day: int, guardApproves: bool,
                                   pendingTalk: Talk, post: PostTalk, resolveTalk: Talk, readBack: Talk)

  datatype Outcome = NothingToDo | Closed(row: Row) | ClosePending | CloseUnconfirmed | CloseFailed

  datatype Effects = Effects(trace: seq<World>, outcome: Outcome)

  function Last(w: World, trace: seq<World>): World {
    if trace == [] then w else trace[|trace| - 1]
  }

  function RealizedPnl(plan: Plan, exit: real, quantity: real): real {
    SignedMove(plan.direction, plan.entry, exit) * quantity
  }

  function RowOf(p: Position, closeId: Id, fill: Order, day: int): Row {
    var quantity := if fill.executedQty != 0.0 then fill.executedQty else p.quantity;
    Row(p.id, closeId, fill, quantity, p.plan.entry, fill.avgPrice, RealizedPnl(p.plan, fill.avgPrice, quantity), day)
  }

  function Save(w: World, p: Position): World {
    w.(pos := Some(p))
  }

  /** The ledger row is appended before the position is cleared. */
  function SettleFromFill(w: World, p: Position, closeId: Id, fill: Order, day: int): Effects {
    var row := RowOf(p, closeId, fill, day);
    var booked := w.(ledger := w.ledger + [row]);
    Effects([booked, booked.(pos := None)], Closed(row))
  }

  /** A venue answer that decides a close: it filled at a readable price. */
  predicate IsFill(a: Answer) {
    a.Found? && a.order.Some? && Filled(a.order.value.status) && a.order.value.avgPrice > 0.0
  }

  /** A venue answer that proves a close will never fill. */
  predicate IsDead(a: Answer) {
    a.NotFound? || (a.Found? && a.order.Some? && Dead(a.order.value.status))
  }

  /** _resolve_pending_close: the effects, and the position a fresh decision may go on with. */
  function ResolvePending(w: World, p: Position, x: CycleInput): (Effects, Option<Position>) {
    if p.pending.None? then (Effects([], NothingToDo), Some(p))
    else
      var id := p.pending.value.id;
      var (w1, a) := Ask(w, id, x.pendingTalk);
      if IsFill(a) then
        var settled := SettleFromFill(w1, p, id, a.order.value, x.day);
        (Effects([w1] + settled.trace, settled.outcome), None)
      else if IsDead(a) then
        var p' := p.(pending := None);
        (Effects([w1, Save(w1, p')], NothingToDo), Some(p'))
      else
        (Effects([w1, Save(w1, p)], if a.Found? then ClosePending else CloseUnconfirmed), None)
  }

  /** submit_live_close_order up to its verdict: the worlds, and "submission performed". */
  function SubmitClose(w: World, id: Id, p: Position, x: CycleInput): (seq<World>, bool) {
    if !x.guardApproves || p.quantity <= 0.0 then ([], false)
    else
      var w1 := PostClose(w, id, p.id, x.post);
      if IsAmbiguousSubmit(x.post.reply) then
        var (w2, a) := Ask(w1, id, x.resolveTalk);
        ([w1, w2], Performed(x.post.reply, ExistenceOf(a)))
      else
        ([w1], Submitted(x.post.reply))
  }

  /** The submitted close is read back: booked if it filled, kept pending if not. */
  function ReadBack(w: World, p: Position, id: Id, x: CycleInput): Effects {
    var (w1, a) := Ask(w, id, x.readBack);
    if IsFill(a) then
      var settled := SettleFromFill(w1, p, id, a.order.value, x.day);
      Effects([w1] + settled.trace, settled.outcome)
    else
      Effects([w1, Save(w1, p)], CloseUnconfirmed)
  }

  /** A fresh close: id written ahead, submitted, then read back; the id is
      dropped again when the submit is known not to have reached the venue. */
  function FreshClose(w: World, p: Position, reason: Reason, x: CycleInput): Effects {
    var id := w.clock;
    var p' := p.(pending := Some(Pending(id, reason)));
    var ahead := Save(w, p').(clock := w.clock + 1);
    var (sent, performed) := SubmitClose(ahead, id, p', x);
    var w1 := Last(ahead, sent);
    if performed then
      var back := ReadBack(w1, p', id, x);
      Effects([ahead] + sent + back.trace, back.outcome)
    else
      Effects([ahead] + sent + [Save(w1, p)], CloseFailed)
  }

  /** The exit decision on a position with no close pending. */
  function Decide(w: World, p: Position, x: CycleInput): Effects {
    var (holding, reason) := ExitSignal(p.plan, p.holding, x.tick);
    var p' := p.(holding := holding);
    if reason.Some? then FreshClose(w, p', reason.value, x) else Effects([Save(w, p')], NothingToDo)
  }

  /** settle_open_live_position. */
  function SettleCycle(w: World, x: CycleInput): Effects {
    if w.pos.None? then Effects([], NothingToDo)
    else
      var (resolved, live) := ResolvePending(w, w.pos.value, x);
      if live.None? then resolved
      else
        var decided := Decide(Last(w, resolved.trace), live.value, x);
        Effects(resolved.trace + decided.trace, decided.outcome)
  }

  // ---- the parts of a cycle ----

  lemma LastOfBoth(w: World, a: seq<World>, b: seq<World>)
    ensures Last(w, a + b) == Last(Last(w, a), b)
  {
  }

  /** A fresh close in three parts: the write-ahead, what submitting leaves, and the read-back or the retreat. */
  lemma FreshCloseParts(w: World, p: Position, reason: Reason, x: CycleInput)
    returns (p': Position, ahead: World, sent: seq<World>, performed: bool, w1: World, tail: Effects)
    ensures p' == p.(pending := Some(Pending(w.clock, reason)))
    ensures ahead == Save(w, p').(clock := w.clock + 1)
    ensures (sent, performed) == SubmitClose(ahead, w.clock, p', x) && w1 == Last(ahead, sent)
    ensures tail == if performed then ReadBack(w1, p', w.clock, x) else Effects([Save(w1, p)], CloseFailed)
    ensures FreshClose(w, p, reason, x) == Effects([ahead] + sent + tail.trace, tail.outcome)
  {
    p' := p.(pending := Some(Pending(w.clock, reason)));
    ahead := Save(w, p').(clock := w.clock + 1);
    var submitted := SubmitClose(ahead, w.clock, p', x);
    sent, performed := submitted.0, submitted.1;
    w1 := Last(ahead, sent);
    tail := if performed then ReadBack(w1, p', w.clock, x) else Effects([Save(w1, p)], CloseFailed);
  }

  /** A cycle in two parts: the pending close resolved, then, if that leaves the position free, a fresh decision. */
  lemma CycleParts(w: World, x: CycleInput) returns (resolved: Effects, live: Option<Position>, w1: World, decided: Effects)
    requires w.pos.Some?
    ensures (resolved, live) == ResolvePending(w, w.pos.value, x) && w1 == Last(w, resolved.trace)
    ensures live.Some? ==> decided == Decide(w1, live.value, x)
    ensures SettleCycle(w, x) ==
            if live.None? then resolved else Effects(resolved.trace + decided.trace, decided.outcome)
  {
    var parts := ResolvePending(w, w.pos.value, x);
    resolved, live := parts.0, parts.1;
    w1 := Last(w, resolved.trace);
    decided := if live.Some? then Decide(w1, live.value, x) else resolved;
  }

  // ---- opening ----

  /** A filled live entry as reported by reconciliation, next to its intent. */
  datatype Entry = Entry(performed: bool, reconciled: bool, status: Status, avgPrice: real, executedQty: real,
                         intentPrice: real, intentQty: real, direction: Direction, stopLoss: real, takeProfit: real)

  function FirstNonZero(a: real, b: real): real { if a != 0.0 then a else b }

  predicate Opening(e: Entry) {
    e.performed && e.reconciled && Filled(e.status)
    && FirstNonZero(e.avgPrice, e.intentPrice) > 0.0 && FirstNonZero(e.executedQty, e.intentQty) > 0.0
  }

  /** open_from_live_execution: whatever the position file held is overwritten. */
  function OpenFrom(w: World, e: Entry): World {
    if !Opening(e) then w
    else
      var price, qty := FirstNonZero(e.avgPrice, e.intentPrice), FirstNonZero(e.executedQty, e.intentQty);
      var plan := Plan(e.direction, price, e.stopLoss, e.takeProfit, RiskOf(price, e.stopLoss));
      w.(pos := Some(Position(w.clock, plan, qty, FRESH, None)),
         terms := w.terms[w.clock := (plan, qty)], clock := w.clock + 1)
  }

  /** Fully performed, reconciled and filled, at a price and in a quantity that are positive: those of the fill, and the
      intended ones only where the fill reports none. */
  predicate FilledEntry(e: Entry) {
    && e.performed && e.reconciled && (e.status == FILLED || e.status == PARTIALLY_FILLED)
    && (if e.avgPrice != 0.0 then e.avgPrice > 0.0 else e.intentPrice > 0.0)
    && (if e.executedQty != 0.0 then e.executedQty > 0.0 else e.intentQty > 0.0)
  }

  /** A fresh position on the fill, with the intended levels; it risks its way to a positive stop. */
  predicate TracksFill(p: Position, e: Entry) {
    && p.plan.entry == (if e.avgPrice != 0.0 then e.avgPrice else e.intentPrice)
    && p.quantity == (if e.executedQty != 0.0 then e.executedQty else e.intentQty)
    && p.plan.direction == e.direction && p.plan.stopLoss == e.stopLoss && p.plan.takeProfit == e.takeProfit
    && p.plan.risk == (if e.stopLoss <= 0.0 then 0.0
                       else if e.stopLoss < p.plan.entry then p.plan.entry - e.stopLoss else e.stopLoss - p.plan.entry)
    && p.holding.count == 0 && p.holding.lastTs == "" && p.pending.None?
  }

  /** The tracked position is the fill. */
  lemma OpenTracksTheFill(w: World, e: Entry)
    ensures var u := OpenFrom(w, e);
            if FilledEntry(e) then
              && u.pos.Some? && u.pos.value.id == w.clock && TracksFill(u.pos.value, e)
              && u.terms == w.terms[w.clock := (u.pos.value.plan, u.pos.value.quantity)] && u.clock == w.clock + 1
              && u.ledger == w.ledger && u.venue == w.venue && u.posted == w.posted && u.told == w.told
            else u == w
  {
  }

  /** The pipeline opens only when nothing is open. */
  function OpenLive(w: World, e: Entry): World {
    if w.pos.Some? then w else OpenFrom(w, e)
  }

  // ---- runs ----

  /** A settle cycle is cut after `cut` effects: a crash if effects remain, complete otherwise. */
  datatype Event = Opens(entry: Entry) | VenueMoves(wish: map<Id, Order>) | Settles(input: CycleInput, cut: nat)

  /** The world a cycle leaves when it is stopped after `cut` effects. */
  function Cut(w: World, trace: seq<World>, cut: nat): World {
    if cut >= |trace| then Last(w, trace) else Last(w, trace[..cut])
  }

  function Step(w: World, e: Event): World {
    match e
    case Opens(entry) => OpenLive(w, entry)
    case VenueMoves(wish) => w.(venue := Evolve(w.venue, wish))
    case Settles(x, cut) => Cut(w, SettleCycle(w, x).trace, cut)
  }

  function Run(w: World, events: seq<Event>): World
    decreases |events|
  {
    if events == [] then w else Run(Step(w, events[0]), events[1..])
  }

  // ---- safety ----

  /** Nothing at the venue under this id can fill any more, or ever did. */
  predicate Retired(w: World, id: Id) {
    id !in w.venue || Dead(w.venue[id].status)
  }

  /** Nothing at the venue under this id can execute any more. */
  predicate Spent(w: World, id: Id) {
    id !in w.venue || Dead(w.venue[id].status) || w.venue[id].status == FILLED
  }

  /** Every close of p that is not retired is the one p remembers. */
  predicate NoRace(w: World, p: Position) {
    forall id :: id in w.posted && w.posted[id] == p.id && !Retired(w, id) ==> p.pending.Some? && p.pending.value.id == id
  }

  predicate IdsInUse(w: World) {
    && (forall id :: id in w.venue ==> id in w.posted)
    && (forall id :: id in w.posted ==> id < w.clock)
    && (forall id :: id in w.posted ==> w.posted[id] in w.terms)
    && (forall id :: id in w.terms ==> id < w.clock)
    && (forall report :: report in w.told ==> report.id in w.venue)
  }

  /** The persisted position is one that was opened, on its own terms, and no close of it is raced. */
  predicate PositionSound(w: World, p: Position) {
    && p.id in w.terms && w.terms[p.id] == (p.plan, p.quantity)
    && (p.pending.Some? ==> p.pending.value.id < w.clock)
    && (p.pending.Some? && p.pending.value.id in w.posted ==> w.posted[p.pending.value.id] == p.id)
    && NoRace(w, p)
  }

  /** A row is priced from a fill the venue reported for a close of its own position. */
  predicate Justified(w: World, r: Row) {
    && r.positionId in w.terms && r.closeId in w.posted && w.posted[r.closeId] == r.positionId
    && Report(r.closeId, r.fill) in w.told && Filled(r.fill.status) && r.fill.avgPrice > 0.0
    && var (plan, quantity) := w.terms[r.positionId];
       && r.quantity == FirstNonZero(r.fill.executedQty, quantity)
       && r.openPrice == plan.entry && r.closePrice == r.fill.avgPrice
       && r.pnl == SignedMove(plan.direction, plan.entry, r.fill.avgPrice) * r.quantity
  }

  predicate Booked(w: World, positionId: Id) {
    exists i :: 0 <= i < |w.ledger| && w.ledger[i].positionId == positionId
  }

  predicate IsOpen(w: World, positionId: Id) {
    w.pos.Some? && w.pos.value.id == positionId
  }

  predicate Inv(w: World) {
    && IdsInUse(w)
    && (w.pos.Some? ==> PositionSound(w, w.pos.value))
    && (forall i :: 0 <= i < |w.ledger| ==> Justified(w, w.ledger[i]))
    && (forall id :: id in w.terms ==> IsOpen(w, id) || Booked(w, id))
  }

  predicate AllInv(trace: seq<World>) {
    trace == [] || (Inv(trace[|trace| - 1]) && AllInv(trace[..|trace| - 1]))
  }
}
