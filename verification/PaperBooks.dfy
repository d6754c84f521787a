/** The multi-book paper kernel (execution/paper_book_kernel.py): one position per book, under caps. */
module PaperBooks {
  import opened Common
  import opened PositionKernel

  /** An entry as the execution record describes it; `signal` is "" when there is none. */
  datatype Request = Request(book: string, filled: bool, direction: Direction, entry: real, quantity: real,
                             stopLoss: real, takeProfit: real, signal: string)

  datatype Position = Position(plan: Plan, signal: string, holding: Holding, lastSeen: Option<real>)

  datatype Slot = Open(position: Position) | Closed

  type Books = map<string, Slot>

  datatype Refused = NotAFill | BookAlreadyOpen | MaxOpenBooks | MaxSameDirection | MaxSameSignalDirection

  datatype Caps = Caps(books: nat, direction: nat, signal: nat)

  // ---- what is open ----

  predicate IsOpen(books: Books, b: string) {
    b in books && books[b].Open?
  }

  function OpenBooks(books: Books): set<string> {
    set b | b in books && IsOpen(books, b)
  }

  function SameDirection(books: Books, direction: Direction): set<string> {
    set b | b in books && IsOpen(books, b) && books[b].position.plan.direction == direction
  }

  function SameSignal(books: Books, signal: string, direction: Direction): set<string> {
    set b | b in SameDirection(books, direction) && books[b].position.signal == signal
  }

  /** All three caps, per direction and per (signal, direction). */
  ghost predicate WithinCaps(books: Books, caps: Caps) {
    && |OpenBooks(books)| <= caps.books
    && (forall d :: |SameDirection(books, d)| <= caps.direction)
    && (forall s, d :: s != "" ==> |SameSignal(books, s, d)| <= caps.signal)
  }

  // ---- opening ----

  /** build_position. */
  function BuildPosition(r: Request): Option<Position> {
    if !r.filled || r.entry <= 0.0 || r.quantity <= 0.0 then None
    else
      var plan := Plan(r.direction, r.entry, r.stopLoss, r.takeProfit, RiskOf(r.entry, r.stopLoss));
      Some(Position(plan, r.signal, FRESH, None))
  }

  /** Why open_in_book turns an entry away; the first reason that applies. */
  function Refusal(books: Books, r: Request, caps: Caps): Option<Refused> {
    if BuildPosition(r).None? then Some(NotAFill)
    else if IsOpen(books, r.book) then Some(BookAlreadyOpen)
    else if |OpenBooks(books)| >= caps.books then Some(MaxOpenBooks)
    else if |SameDirection(books, r.direction)| >= caps.direction then Some(MaxSameDirection)
    else if r.signal != "" && |SameSignal(books, r.signal, r.direction)| >= caps.signal then Some(MaxSameSignalDirection)
    else None
  }

  function OpenIn(books: Books, r: Request, caps: Caps): Books {
    if Refusal(books, r, caps).Some? then books else books[r.book := Open(BuildPosition(r).value)]
  }

  // ---- settling ----

  function SettleSlot(slot: Slot, t: Tick): (Slot, Option<Exit>) {
    if slot.Closed? then (slot, None)
    else
      var (h, e) := SettleTradePlan(slot.position.plan, slot.position.holding, t);
      if e.Some? then (Closed, e) else (Open(slot.position.(holding := h, lastSeen := t.lastClose)), None)
  }

  function SettleEvery(books: Books, t: Tick): Books {
    map b | b in books :: SettleSlot(books[b], t).0
  }

  datatype Summary = Summary(book: string, position: Position, exit: Exit)

  /** The position as a summary shows it: settling has already advanced its holding count. */
  function Aged(p: Position, t: Tick): Position {
    if t.manual && t.lastClose.Some? then p else p.(holding := AdvanceHolding(p.holding, t.candle))
  }

  /** The summary of one book, if this candle closes it. */
  function SummaryOf(b: string, slot: Slot, t: Tick): seq<Summary> {
    var exit := SettleSlot(slot, t).1;
    if exit.Some? then [Summary(b, Aged(slot.position, t), exit.value)] else []
  }

  /** The close summaries, in book order. */
  function Summaries(books: Books, order: seq<string>, t: Tick): seq<Summary>
    requires forall b :: b in order ==> b in books
  {
    if order == [] then []
    else
      var b := order[|order| - 1];
      Summaries(books, order[..|order| - 1], t) + SummaryOf(b, books[b], t)
  }

  /** paper_books.json; `order` is the order the books were first entered in. */
  class PaperBookKernel {
    var books: Books
    var order: seq<string>
    const caps: Caps

    ghost predicate Valid()
      reads this
    {
      && (forall b :: b in order <==> b in books)
      && (forall i, j :: 0 <= i < j < |order| ==> order[i] != order[j])
      && WithinCaps(books, caps)
    }

    constructor (caps: Caps)
      ensures Valid() && books == map[] && this.caps == caps
    {
      books, order := map[], [];
      this.caps := caps;
      new;
      NothingOpen(books);
    }

    /** open_in_book. */
    method OpenInBook(r: Request) returns (position: Option<Position>, refused: Option<Refused>)
      requires Valid()
      modifies this
      ensures Valid()
      ensures refused == Refusal(old(books), r, caps) && (position.Some? <==> refused.None?)
      ensures position.Some? ==> position == BuildPosition(r)
      ensures books == OpenIn(old(books), r, caps)
      ensures refused.Some? ==> unchanged(this)
    {
      OpenKeepsCaps(books, r, caps);
      position := BuildPosition(r);
      if position.None? {
        return None, Some(NotAFill);
      }
      if IsOpen(books, r.book) {
        return None, Some(BookAlreadyOpen);
      }
      if |OpenBooks(books)| >= caps.books {
        return None, Some(MaxOpenBooks);
      }
      if |SameDirection(books, r.direction)| >= caps.direction {
        return None, Some(MaxSameDirection);
      }
      if r.signal != "" {
        if |SameSignal(books, r.signal, r.direction)| >= caps.signal {
          return None, Some(MaxSameSignalDirection);
        }
      }
      if r.book !in books {
        order := order + [r.book];
      }
      books := books[r.book := Open(position.value)];
      refused := None;
    }

    /** settle_books: every open book against the same candle. */
    method SettleBooks(t: Tick) returns (summaries: seq<Summary>)
      requires Valid()
      modifies this
      ensures Valid()
      ensures books == SettleEvery(old(books), t) && order == old(order)
      ensures summaries == Summaries(old(books), order, t)
    {
      SettleKeepsCaps(books, caps, t);
      summaries := SettleInOrder(t);
    }

    /** One book of it. */
    method SettleBook(b: string, t: Tick) returns (summary: seq<Summary>)
      requires b in books
      modifies this`books
      ensures books == old(books)[b := SettleSlot(old(books)[b], t).0]
      ensures summary == SummaryOf(b, old(books)[b], t)
    {
      summary := [];
      if books[b].Open? {
        var position := books[b].position;
        var (h, exit) := SettleTradePlan(position.plan, position.holding, t);
        position := position.(holding := h);
        if exit.None? {
          books := books[b := Open(position.(lastSeen := t.lastClose))];
        } else {
          books := books[b := Closed];
          summary := [Summary(b, position, exit.value)];
        }
      }
    }

    /** Its loop over the books. */
    method SettleInOrder(t: Tick) returns (summaries: seq<Summary>)
      requires forall b :: b in order <==> b in books
      requires forall i, j :: 0 <= i < j < |order| ==> order[i] != order[j]
      modifies this`books
      ensures books == SettleEvery(old(books), t)
      ensures summaries == Summaries(old(books), order, t)
    {
      summaries := [];
      ghost var before := books;
      for i := 0 to |order|
        invariant books == SettleFirst(before, order[..i], t)
        invariant summaries == Summaries(before, order[..i], t)
      {
        var b := order[i];
        NextInOrder(order, i);
        SettleNext(before, order[..i], b, t);
        SummariesNext(before, order[..i], b, t);
        var summary := SettleBook(b, t);
        summaries := summaries + summary;
      }
      SettledAll(before, order, t);
    }
  }

  /** The books once those listed have been settled. */
  function SettleFirst(books: Books, settled: seq<string>, t: Tick): Books {
    map b | b in books :: if b in settled then SettleSlot(books[b], t).0 else books[b]
  }

  lemma SettleNext(books: Books, settled: seq<string>, b: string, t: Tick)
    requires b in books && b !in settled
    ensures SettleFirst(books, settled, t)[b] == books[b]
    ensures SettleFirst(books, settled + [b], t) ==
            SettleFirst(books, settled, t)[b := SettleSlot(books[b], t).0]
  {
  }

  lemma NextInOrder(order: seq<string>, i: nat)
    requires i < |order| && forall i, j :: 0 <= i < j < |order| ==> order[i] != order[j]
    ensures order[..i + 1] == order[..i] + [order[i]] && order[i] !in order[..i]
  {
  }

  lemma SummariesNext(books: Books, order: seq<string>, b: string, t: Tick)
    requires b in books && forall b :: b in order ==> b in books
    ensures Summaries(books, order + [b], t) ==
            Summaries(books, order, t) + SummaryOf(b, books[b], t)
  {
  }

  lemma SettledAll(books: Books, order: seq<string>, t: Tick)
    requires forall b :: b in order <==> b in books
    ensures order[..|order|] == order
    ensures SettleFirst(books, order, t) == SettleEvery(books, t)
  {
  }

  // ---- the caps ----

  lemma NothingOpen(books: Books)
    requires books == map[]
    ensures OpenBooks(books) == {} && forall d :: SameDirection(books, d) == {}
    ensures forall s, d :: SameSignal(books, s, d) == {}
  {
  }

  lemma SubsetSize<T>(a: set<T>, b: set<T>)
    requires a <= b
    ensures |a| <= |b|
  {
    assert b == a + (b - a);
  }

  /** Opening adds one book to what is open, and only in its own direction and signal. */
  lemma OpenGrows(books: Books, r: Request, p: Position, d: Direction, s: string)
    requires !IsOpen(books, r.book) && BuildPosition(r) == Some(p)
    ensures var after := books[r.book := Open(p)];
            && OpenBooks(after) == OpenBooks(books) + {r.book}
            && SameDirection(after, d) == SameDirection(books, d) + (if d == r.direction then {r.book} else {})
            && SameSignal(after, s, d) ==
               SameSignal(books, s, d) + (if d == r.direction && s == r.signal then {r.book} else {})
  {
  }

  lemma OpenKeepsCaps(books: Books, r: Request, caps: Caps)
    requires WithinCaps(books, caps)
    ensures WithinCaps(OpenIn(books, r, caps), caps)
  {
    if Refusal(books, r, caps).None? {
      var p := BuildPosition(r).value;
      OpenGrows(books, r, p, r.direction, r.signal);
      var after := OpenIn(books, r, caps);
      forall d ensures |SameDirection(after, d)| <= caps.direction {
        OpenGrows(books, r, p, d, r.signal);
      }
      forall s, d | s != "" ensures |SameSignal(after, s, d)| <= caps.signal {
        OpenGrows(books, r, p, d, s);
      }
    }
  }

  /** Settling opens nothing and turns no position around. */
  lemma SettleShrinks(books: Books, t: Tick, d: Direction, s: string)
    ensures var after := SettleEvery(books, t);
            && OpenBooks(after) <= OpenBooks(books)
            && SameDirection(after, d) <= SameDirection(books, d)
            && SameSignal(after, s, d) <= SameSignal(books, s, d)
  {
  }

  lemma SettleKeepsCaps(books: Books, caps: Caps, t: Tick)
    requires WithinCaps(books, caps)
    ensures WithinCaps(SettleEvery(books, t), caps)
  {
    var after := SettleEvery(books, t);
    SettleShrinks(books, t, LONG, "");
    SubsetSize(OpenBooks(after), OpenBooks(books));
    forall d ensures |SameDirection(after, d)| <= caps.direction {
      SettleShrinks(books, t, d, "");
      SubsetSize(SameDirection(after, d), SameDirection(books, d));
    }
    forall s, d | s != "" ensures |SameSignal(after, s, d)| <= caps.signal {
      SettleShrinks(books, t, d, s);
      SubsetSize(SameSignal(after, s, d), SameSignal(books, s, d));
    }
  }

  // ---- whole runs ----

  datatype Event = OpenEvent(r: Request) | SettleEvent(t: Tick)

  function Step(books: Books, caps: Caps, e: Event): Books {
    match e
    case OpenEvent(r) => OpenIn(books, r, caps)
    case SettleEvent(t) => SettleEvery(books, t)
  }

  function Run(books: Books, caps: Caps, events: seq<Event>): Books
    decreases |events|
  {
    if events == [] then books else Run(Step(books, caps, events[0]), caps, events[1..])
  }

  /** The candles a run settles against. */
  function Ticks(events: seq<Event>): seq<Tick> {
    if events == [] then []
    else (if events[0].SettleEvent? then [events[0].t] else []) + Ticks(events[1..])
  }

  /** The exits of one book over a run. */
  function Exits(books: Books, caps: Caps, events: seq<Event>, b: string): seq<Exit>
    decreases |events|
  {
    if events == [] then []
    else
      var exit := if events[0].SettleEvent? && b in books then SettleSlot(books[b], events[0].t).1 else None;
      (if exit.Some? then [exit.value] else []) + Exits(Step(books, caps, events[0]), caps, events[1..], b)
  }

  /** Over every interleaving of opens and settles, the caps hold. */
  lemma {:induction false} CapsHold(books: Books, caps: Caps, events: seq<Event>)
    requires WithinCaps(books, caps)
    ensures WithinCaps(Run(books, caps, events), caps)
    decreases |events|
  {
    if events != [] {
      match events[0] {
        case OpenEvent(r) => OpenKeepsCaps(books, r, caps);
        case SettleEvent(t) => SettleKeepsCaps(books, caps, t);
      }
      CapsHold(Step(books, caps, events[0]), caps, events[1..]);
    }
  }

  /** The open positions in this direction, and those of them on this signal. */
  function Held(books: Books, direction: Direction): set<string> {
    set b | b in books && books[b].Open? && books[b].position.plan.direction == direction
  }

  function HeldOn(books: Books, direction: Direction, signal: string): set<string> {
    set b | b in books && books[b].Open? && books[b].position.plan.direction == direction && books[b].position.signal == signal
  }

  /** Which reason turns an entry away, in its order, and what is stored when none does. */
  lemma OpeningIs(books: Books, r: Request, caps: Caps)
    ensures var refusal, after := Refusal(books, r, caps), OpenIn(books, r, caps);
            var fill := r.filled && r.entry > 0.0 && r.quantity > 0.0;
            var free := fill && !(r.book in books && books[r.book].Open?);
            var room := free && |set b | b in books && books[b].Open?| < caps.books;
            var balanced := room && |Held(books, r.direction)| < caps.direction;
            var apart := balanced && (r.signal == "" || |HeldOn(books, r.direction, r.signal)| < caps.signal);
            && (refusal == Some(NotAFill) <==> !fill)
            && (refusal == Some(BookAlreadyOpen) <==> fill && !free)
            && (refusal == Some(MaxOpenBooks) <==> free && !room)
            && (refusal == Some(MaxSameDirection) <==> room && !balanced)
            && (refusal == Some(MaxSameSignalDirection) <==> balanced && !apart)
            && (refusal == None <==> apart)
            && (if !apart then after == books
                else
                  && after.Keys == books.Keys + {r.book} && after[r.book].Open?
                  && (forall b :: b in books && b != r.book ==> after[b] == books[b])
                  && var p := after[r.book].position;
                     && p.plan.direction == r.direction && p.plan.entry == r.entry
                     && p.plan.stopLoss == r.stopLoss && p.plan.takeProfit == r.takeProfit
                     && p.plan.risk == (if r.stopLoss > 0.0 then Max(r.entry - r.stopLoss, r.stopLoss - r.entry) else 0.0)
                     && p.signal == r.signal && p.holding == Holding(0, "") && p.lastSeen.None?)
  {
    assert OpenBooks(books) == set b | b in books && books[b].Open?;
    assert SameDirection(books, r.direction) == Held(books, r.direction);
    assert SameSignal(books, r.signal, r.direction) == HeldOn(books, r.direction, r.signal);
  }

  /** One settled book: closed with a summary of the position as it left, or open with the candle counted and the last close seen. */
  lemma SettlingIs(books: Books, b: string, t: Tick)
    requires b in books
    ensures var after, summary := SettleEvery(books, t)[b], SummaryOf(b, books[b], t);
            if books[b].Closed? then after.Closed? && summary == []
            else
              var p := books[b].position;
              var (h, exit) := SettleTradePlan(p.plan, p.holding, t);
              if exit.None? then
                summary == [] && after.Open? && after.position == Position(p.plan, p.signal, h, t.lastClose)
              else
                after.Closed? && summary == [Summary(b, Position(p.plan, p.signal, h, p.lastSeen), exit.value)]
  {
  }

  /** A refusal changes nothing; an accepted open replaces only its own book, which was not open. */
  lemma OpenTouchesOnlyItsBook(books: Books, r: Request, caps: Caps, b: string)
    requires b != r.book || IsOpen(books, b)
    ensures b in OpenIn(books, r, caps) <==> b in books
    ensures b in books ==> OpenIn(books, r, caps)[b] == books[b]
  {
  }

  /** Whatever other books open and close in between, an open book leaves exactly as it would alone:
      same exit on the same candle, or still open with the same holding state. */
  lemma {:induction false} BookSettlesAlone(books: Books, caps: Caps, events: seq<Event>, b: string, from: nat)
    requires IsOpen(books, b)
    ensures var p := books[b].position;
            match PaperRun(p.plan, p.holding, Ticks(events), from) {
              case Exited(_, exit, _) =>
                Exits(books, caps, events, b) != [] && Exits(books, caps, events, b)[0] == exit
              case StillOpen(h) =>
                && Exits(books, caps, events, b) == [] && IsOpen(Run(books, caps, events), b)
                && Run(books, caps, events)[b].position.holding == h
                && Run(books, caps, events)[b].position.plan == p.plan
            }
    decreases |events|
  {
    if events != [] {
      var next := Step(books, caps, events[0]);
      if events[0].OpenEvent? {
        OpenTouchesOnlyItsBook(books, events[0].r, caps, b);
        assert Ticks(events) == Ticks(events[1..]);
        BookSettlesAlone(next, caps, events[1..], b, from);
      } else {
        assert Ticks(events)[1..] == Ticks(events[1..]);
        if SettleSlot(books[b], events[0].t).1.None? {
          BookSettlesAlone(next, caps, events[1..], b, from + 1);
        }
      }
    }
  }
}
