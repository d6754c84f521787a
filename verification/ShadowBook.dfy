/** The shadow book of blocked signals (feedback/counterfactual_tracker.py). */
module ShadowBook {
  import opened Common
  import opened PositionKernel

  const MAX_OPEN_COUNTERFACTUALS := 50

  /** What a blocked signal would have traded; `id` is the hash of signal, direction, entry and block reason. */
  datatype Setup = Setup(id: string, plan: Plan, timeframe: string, blockReason: string)

  datatype Shadow = Shadow(setup: Setup, holding: Holding, lastSeen: Option<real>)

  datatype Kind = MissedOpportunity | AvoidedLoss | NeutralBlock

  datatype Outcome = Outcome(setup: Setup, exit: Exit, kind: Kind, held: nat)

  function Classify(resultR: real): Kind {
    if resultR > 0.0 then MissedOpportunity else if resultR < 0.0 then AvoidedLoss else NeutralBlock
  }

  predicate Coherent(direction: Direction, entry: real, stopLoss: real, takeProfit: real) {
    if direction == LONG then stopLoss < entry < takeProfit else takeProfit < entry < stopLoss
  }

  /** What the research wanted, as build_counterfactual_plan reads it: no direction or no usable price is None. */
  datatype Blocked = Blocked(id: string, direction: Option<Direction>, entry: Option<real>, stopLoss: Option<real>,
                             takeProfit: Option<real>, timeframe: string, blockReason: string)

  /** build_counterfactual_plan. */
  function BuildPlan(b: Blocked): Option<Setup> {
    if b.direction.None? || b.entry.None? || b.stopLoss.None? || b.takeProfit.None? then None
    else if !Coherent(b.direction.value, b.entry.value, b.stopLoss.value, b.takeProfit.value) then None
    else
      var risk := Abs(b.entry.value - b.stopLoss.value);
      Some(Setup(b.id, Plan(b.direction.value, b.entry.value, b.stopLoss.value, b.takeProfit.value, risk),
                 b.timeframe, b.blockReason))
  }

  /** A shadow plan always risks something, so its recorded R is never a guarded division. */
  lemma PlansCarryRisk(b: Blocked)
    requires BuildPlan(b).Some?
    ensures BuildPlan(b).value.plan.risk > 0.0
    ensures SignedMove(b.direction.value, b.entry.value, b.stopLoss.value) < 0.0
  {
  }

  /** What a blocked signal becomes: a plan on its own levels, exactly when it names a direction and three prices and
      its levels lie on their sides of the entry. */
  lemma PlanIs(b: Blocked)
    ensures BuildPlan(b).Some? <==>
            && b.direction.Some? && b.entry.Some? && b.stopLoss.Some? && b.takeProfit.Some?
            && (b.direction == Some(LONG) ==> b.stopLoss.value < b.entry.value && b.entry.value < b.takeProfit.value)
            && (b.direction == Some(SHORT) ==> b.stopLoss.value > b.entry.value && b.entry.value > b.takeProfit.value)
    ensures BuildPlan(b).Some? ==>
              var s := BuildPlan(b).value;
              && s.id == b.id && s.timeframe == b.timeframe && s.blockReason == b.blockReason
              && Some(s.plan.direction) == b.direction && Some(s.plan.entry) == b.entry
              && Some(s.plan.stopLoss) == b.stopLoss && Some(s.plan.takeProfit) == b.takeProfit
              && s.plan.risk == Max(s.plan.entry - s.plan.stopLoss, s.plan.stopLoss - s.plan.entry)
  {
  }

  /** A blocked trade that would have won was missed, one that would have lost was avoided. */
  lemma KindIs(resultR: real)
    ensures Classify(resultR) == MissedOpportunity <==> resultR > 0.0
    ensures Classify(resultR) == AvoidedLoss <==> resultR < 0.0
    ensures Classify(resultR) == NeutralBlock <==> resultR == 0.0
  {
  }

  // ---- the book ----

  datatype Book = Book(open: seq<Shadow>, registry: seq<Outcome>)

  predicate Holds(rows: seq<Shadow>, id: string) {
    exists i :: 0 <= i < |rows| && rows[i].setup.id == id
  }

  predicate DistinctIds(rows: seq<Shadow>) {
    forall i, j :: 0 <= i < j < |rows| ==> rows[i].setup.id != rows[j].setup.id
  }

  predicate Recordable(rows: seq<Shadow>, b: Blocked) {
    BuildPlan(b).Some? && !Holds(rows, b.id) && |rows| < MAX_OPEN_COUNTERFACTUALS
  }

  function Record(book: Book, b: Blocked): Book {
    if Recordable(book.open, b) then book.(open := book.open + [Shadow(BuildPlan(b).value, FRESH, None)]) else book
  }

  /** How a candle settles a shadow position: the holding state it leaves, and the exit, if any. */
  type Settler = Shadow -> (Holding, Option<Exit>)

  /** A tick as a shadow position sees it: never a manual exit, and the holding limit of its own timeframe. */
  function AsShadow(t: Tick, maxHold: int): Tick {
    t.(manual := false, maxHold := maxHold)
  }

  /** The paper kernel's own exit math. */
  function SettlerFor(t: Tick, maxHold: string -> int): Settler {
    (s: Shadow) => SettleTradePlan(s.setup.plan, s.holding, AsShadow(t, maxHold(s.setup.timeframe)))
  }

  function Remaining(rows: seq<Shadow>, t: Tick, settle: Settler): seq<Shadow> {
    if rows == [] then []
    else
      var s := rows[|rows| - 1];
      var (h, e) := settle(s);
      Remaining(rows[..|rows| - 1], t, settle) +
      if e.None? then [s.(holding := h, lastSeen := t.lastClose)] else []
  }

  function SettledBy(rows: seq<Shadow>, t: Tick, settle: Settler): seq<Outcome> {
    if rows == [] then []
    else
      var s := rows[|rows| - 1];
      var (h, e) := settle(s);
      SettledBy(rows[..|rows| - 1], t, settle) +
      if e.Some? then [Outcome(s.setup, e.value, Classify(e.value.resultR), h.count)] else []
  }

  function Settle(book: Book, t: Tick, maxHold: string -> int): Book {
    var settle := SettlerFor(t, maxHold);
    Book(Remaining(book.open, t, settle), book.registry + SettledBy(book.open, t, settle))
  }

  /** A settle call cut by a crash after `cut` writes: the outcomes are appended one by one, and only then
      is the book of open positions saved. */
  function SettleCut(book: Book, t: Tick, maxHold: string -> int, cut: nat): Book {
    var outcomes := SettledBy(book.open, t, SettlerFor(t, maxHold));
    if cut <= |outcomes| then book.(registry := book.registry + outcomes[..cut]) else Settle(book, t, maxHold)
  }

  // ---- conservation ----

  function OpenSetups(rows: seq<Shadow>): multiset<Setup> {
    if rows == [] then multiset{} else OpenSetups(rows[..|rows| - 1]) + multiset{rows[|rows| - 1].setup}
  }

  function SettledSetups(outcomes: seq<Outcome>): multiset<Setup> {
    if outcomes == [] then multiset{}
    else SettledSetups(outcomes[..|outcomes| - 1]) + multiset{outcomes[|outcomes| - 1].setup}
  }

  lemma OpenSnoc(rows: seq<Shadow>, s: Shadow)
    ensures OpenSetups(rows + [s]) == OpenSetups(rows) + multiset{s.setup}
  {
  }

  lemma SettledSnoc(outcomes: seq<Outcome>, o: Outcome)
    ensures SettledSetups(outcomes + [o]) == SettledSetups(outcomes) + multiset{o.setup}
  {
  }

  lemma {:induction false} SettledConcat(a: seq<Outcome>, b: seq<Outcome>)
    ensures SettledSetups(a + b) == SettledSetups(a) + SettledSetups(b)
  {
    if b == [] {
      assert a + b == a;
    } else {
      var init, last := b[..|b| - 1], b[|b| - 1];
      assert a + b == (a + init) + [last];
      SettledConcat(a, init);
      SettledSnoc(a + init, last);
    }
  }

  /** Settling moves plans from the book to the registry, and loses or invents none. */
  lemma {:induction false} SettlingConserves(rows: seq<Shadow>, t: Tick, settle: Settler)
    ensures OpenSetups(Remaining(rows, t, settle)) + SettledSetups(SettledBy(rows, t, settle)) == OpenSetups(rows)
  {
    if rows != [] {
      var init, s := rows[..|rows| - 1], rows[|rows| - 1];
      var (h, e) := settle(s);
      SettlingConserves(init, t, settle);
      if e.None? {
        OpenSnoc(Remaining(init, t, settle), s.(holding := h, lastSeen := t.lastClose));
        assert SettledBy(rows, t, settle) == SettledBy(init, t, settle);
      } else {
        SettledSnoc(SettledBy(init, t, settle), Outcome(s.setup, e.value, Classify(e.value.resultR), h.count));
        assert Remaining(rows, t, settle) == Remaining(init, t, settle);
      }
    }
  }

  lemma {:induction false} SettlingKeepsIdsDistinct(rows: seq<Shadow>, t: Tick, settle: Settler)
    requires DistinctIds(rows)
    ensures DistinctIds(Remaining(rows, t, settle)) && |Remaining(rows, t, settle)| <= |rows|
    ensures forall i :: 0 <= i < |Remaining(rows, t, settle)| ==> Holds(rows, Remaining(rows, t, settle)[i].setup.id)
  {
    if rows != [] {
      var init, s := rows[..|rows| - 1], rows[|rows| - 1];
      SettlingKeepsIdsDistinct(init, t, settle);
      var left := Remaining(init, t, settle);
      forall i | 0 <= i < |left| ensures Holds(rows, left[i].setup.id) && left[i].setup.id != s.setup.id {
        var k :| 0 <= k < |init| && init[k].setup.id == left[i].setup.id;
        assert rows[k] == init[k];
      }
      assert Holds(rows, s.setup.id);
    }
  }

  predicate WellFormed(book: Book) {
    DistinctIds(book.open) && |book.open| <= MAX_OPEN_COUNTERFACTUALS
  }

  lemma RecordingConserves(book: Book, b: Blocked)
    requires WellFormed(book)
    ensures WellFormed(Record(book, b))
    ensures OpenSetups(Record(book, b).open) ==
            OpenSetups(book.open) + if Recordable(book.open, b) then multiset{BuildPlan(b).value} else multiset{}
  {
  }

  // ---- whole runs ----

  /** A blocked signal is recorded, with one write; a candle settles the book, cut after `cut` writes by a crash. */
  datatype Event = RecordEvent(blocked: Blocked) | SettleEvent(tick: Tick, cut: nat)

  function Step(book: Book, e: Event, maxHold: string -> int): Book {
    match e
    case RecordEvent(b) => Record(book, b)
    case SettleEvent(t, cut) => SettleCut(book, t, maxHold, cut)
  }

  function Run(events: seq<Event>, maxHold: string -> int): Book {
    if events == [] then Book([], [])
    else Step(Run(events[..|events| - 1], maxHold), events[|events| - 1], maxHold)
  }

  /** The plan an event records. */
  function Gained(book: Book, e: Event): multiset<Setup> {
    if e.RecordEvent? && Recordable(book.open, e.blocked) then multiset{BuildPlan(e.blocked).value} else multiset{}
  }

  /** Every plan the recorder accepted over a run, with repetitions. */
  function Recorded(events: seq<Event>, maxHold: string -> int): multiset<Setup> {
    if events == [] then multiset{}
    else
      Recorded(events[..|events| - 1], maxHold) + Gained(Run(events[..|events| - 1], maxHold), events[|events| - 1])
  }

  /** The outcomes an event appends without taking their plans off the book. */
  function Strayed(book: Book, e: Event, maxHold: string -> int): seq<Outcome> {
    if e.RecordEvent? then []
    else
      var outcomes := SettledBy(book.open, e.tick, SettlerFor(e.tick, maxHold));
      if e.cut <= |outcomes| then outcomes[..e.cut] else []
  }

  /** Every outcome of a run whose plan a crash left on the book. */
  function Strays(events: seq<Event>, maxHold: string -> int): seq<Outcome> {
    if events == [] then []
    else
      Strays(events[..|events| - 1], maxHold) + Strayed(Run(events[..|events| - 1], maxHold), events[|events| - 1], maxHold)
  }

  /** The plans a book accounts for, open or settled. */
  function Accounted(book: Book): multiset<Setup> {
    OpenSetups(book.open) + SettledSetups(book.registry)
  }

  predicate Faithful(outcomes: seq<Outcome>) {
    forall i :: 0 <= i < |outcomes| ==> outcomes[i].kind == Classify(outcomes[i].exit.resultR)
  }

  lemma {:induction false} SettledFaithfully(rows: seq<Shadow>, t: Tick, settle: Settler)
    ensures Faithful(SettledBy(rows, t, settle))
  {
    if rows != [] { SettledFaithfully(rows[..|rows| - 1], t, settle); }
  }

  lemma SettleConserves(book: Book, t: Tick, maxHold: string -> int)
    ensures Accounted(Settle(book, t, maxHold)) == Accounted(book)
  {
    SettlingConserves(book.open, t, SettlerFor(t, maxHold));
    SettledConcat(book.registry, SettledBy(book.open, t, SettlerFor(t, maxHold)));
  }

  lemma AppendingAccounts(book: Book, outcomes: seq<Outcome>)
    ensures Accounted(book.(registry := book.registry + outcomes)) == Accounted(book) + SettledSetups(outcomes)
  {
    SettledConcat(book.registry, outcomes);
  }

  lemma CutConserves(book: Book, t: Tick, maxHold: string -> int, cut: nat)
    ensures Accounted(SettleCut(book, t, maxHold, cut)) ==
            Accounted(book) + SettledSetups(Strayed(book, SettleEvent(t, cut), maxHold))
  {
    var outcomes := SettledBy(book.open, t, SettlerFor(t, maxHold));
    if cut <= |outcomes| {
      AppendingAccounts(book, outcomes[..cut]);
    } else {
      SettleConserves(book, t, maxHold);
    }
  }

  lemma CutKeepsWellFormed(book: Book, t: Tick, maxHold: string -> int, cut: nat)
    requires WellFormed(book)
    ensures WellFormed(SettleCut(book, t, maxHold, cut))
  {
    SettlingKeepsIdsDistinct(book.open, t, SettlerFor(t, maxHold));
  }

  lemma StepConserves(book: Book, e: Event, maxHold: string -> int)
    requires WellFormed(book)
    ensures WellFormed(Step(book, e, maxHold))
    ensures Accounted(Step(book, e, maxHold)) == Accounted(book) + Gained(book, e) + SettledSetups(Strayed(book, e, maxHold))
  {
    match e
    case RecordEvent(b) =>
      RecordingConserves(book, b);
    case SettleEvent(t, cut) =>
      CutConserves(book, t, maxHold, cut);
      CutKeepsWellFormed(book, t, maxHold, cut);
  }

  lemma StepFaithful(book: Book, e: Event, maxHold: string -> int)
    requires Faithful(book.registry)
    ensures Faithful(Step(book, e, maxHold).registry)
  {
    if e.SettleEvent? {
      SettledFaithfully(book.open, e.tick, SettlerFor(e.tick, maxHold));
    }
  }

  /** Over any run, cut anywhere by crashes: open ids are distinct and at most 50, every recorded plan is open or
      settled as often as it was recorded plus once for every stray, and every outcome is classified by the sign of its R. */
  lemma {:induction false} PlansAndStrays(events: seq<Event>, maxHold: string -> int)
    ensures WellFormed(Run(events, maxHold))
    ensures Accounted(Run(events, maxHold)) == Recorded(events, maxHold) + SettledSetups(Strays(events, maxHold))
    ensures Faithful(Run(events, maxHold).registry)
  {
    if events != [] {
      var init, e := events[..|events| - 1], events[|events| - 1];
      var before := Run(init, maxHold);
      PlansAndStrays(init, maxHold);
      StepConserves(before, e, maxHold);
      StepFaithful(before, e, maxHold);
      SettledConcat(Strays(init, maxHold), Strayed(before, e, maxHold));
    }
  }

  /** The recorded plans are exactly the open and the settled ones, as multisets, if and only if
      no crash fell between an append and the save of the book. */
  lemma PlansAreConserved(events: seq<Event>, maxHold: string -> int)
    ensures Accounted(Run(events, maxHold)) == Recorded(events, maxHold) <==> Strays(events, maxHold) == []
  {
    PlansAndStrays(events, maxHold);
    var strays := Strays(events, maxHold);
    if strays != [] {
      var setup := strays[|strays| - 1].setup;
      assert SettledSetups(strays)[setup] > 0;
      assert Accounted(Run(events, maxHold))[setup] > Recorded(events, maxHold)[setup];
    }
  }

  const LONG_AT_100 := Blocked("a", Some(LONG), Some(100.0), Some(90.0), Some(110.0), "1h", "gate")

  const DROP := Tick(Some(Candle(None, 105.0, 85.0)), Some(88.0), false, 48)

  const STOPPED := Outcome(Setup("a", Plan(LONG, 100.0, 90.0, 110.0, 10.0), "1h", "gate"), Exit(StopLoss, 90.0, -1.0), AvoidedLoss, 1)

  const SHADOWED := Shadow(STOPPED.setup, FRESH, None)

  lemma DropStops(maxHold: string -> int)
    ensures SettlerFor(DROP, maxHold)(SHADOWED) == (Holding(1, ""), Some(STOPPED.exit))
  {
  }

  lemma OneStopped(settle: Settler)
    requires settle(SHADOWED) == (Holding(1, ""), Some(STOPPED.exit))
    ensures SettledBy([SHADOWED], DROP, settle) == [STOPPED] && Remaining([SHADOWED], DROP, settle) == []
  {
    assert [SHADOWED][..0] == [];
  }

  lemma RunOneMore(events: seq<Event>, e: Event, maxHold: string -> int)
    ensures Run(events + [e], maxHold) == Step(Run(events, maxHold), e, maxHold)
  {
    assert (events + [e])[..|events|] == events;
  }

  lemma SettlingRecordsNothing(events: seq<Event>, e: Event, maxHold: string -> int)
    requires e.SettleEvent?
    ensures Recorded(events + [e], maxHold) == Recorded(events, maxHold)
  {
    assert (events + [e])[..|events|] == events;
  }

  lemma RecordsOne(maxHold: string -> int)
    ensures Run([RecordEvent(LONG_AT_100)], maxHold) == Book([SHADOWED], [])
    ensures Recorded([RecordEvent(LONG_AT_100)], maxHold) == multiset{STOPPED.setup}
  {
    assert [RecordEvent(LONG_AT_100)][..0] == [];
  }

  /** A settle call on the falling candle: cut after its append, and run to its end. */
  lemma StopSettles(registry: seq<Outcome>, maxHold: string -> int)
    ensures SettleCut(Book([SHADOWED], registry), DROP, maxHold, 1) == Book([SHADOWED], registry + [STOPPED])
    ensures SettleCut(Book([SHADOWED], registry), DROP, maxHold, 2) == Book([], registry + [STOPPED])
  {
    DropStops(maxHold);
    OneStopped(SettlerFor(DROP, maxHold));
    assert [STOPPED][..1] == [STOPPED];
  }

  /** Cut after its append and then run again: the same plan, settled twice. */
  lemma SettledTwice(events: seq<Event>, c: Event, d: Event, maxHold: string -> int)
    requires c == SettleEvent(DROP, 1) && d == SettleEvent(DROP, 2)
    requires Run(events, maxHold) == Book([SHADOWED], [])
    ensures Run(events + [c] + [d], maxHold) == Book([], [STOPPED, STOPPED])
    ensures Recorded(events + [c] + [d], maxHold) == Recorded(events, maxHold)
  {
    RunOneMore(events, c, maxHold);
    RunOneMore(events + [c], d, maxHold);
    SettlingRecordsNothing(events, c, maxHold);
    SettlingRecordsNothing(events + [c], d, maxHold);
    StopSettles([], maxHold);
    StopSettles([STOPPED], maxHold);
    assert [] + [STOPPED] == [STOPPED] && [STOPPED] + [STOPPED] == [STOPPED, STOPPED];
  }

  /** A concrete run: a crash between append and save, and one blocked signal ends with two outcomes. */
  lemma CrashSettlesTwice(maxHold: string -> int) returns (events: seq<Event>)
    ensures events == [RecordEvent(LONG_AT_100), SettleEvent(DROP, 1), SettleEvent(DROP, 2)]
    ensures Run(events, maxHold) == Book([], [STOPPED, STOPPED])
    ensures Recorded(events, maxHold) == multiset{STOPPED.setup}
  {
    events := [RecordEvent(LONG_AT_100)];
    RecordsOne(maxHold);
    SettledTwice(events, SettleEvent(DROP, 1), SettleEvent(DROP, 2), maxHold);
    events := events + [SettleEvent(DROP, 1)] + [SettleEvent(DROP, 2)];
  }

  // ---- the tracker as it runs ----

  /** The books left behind while these outcomes are appended, one after each. */
  function Appends(book: Book, outcomes: seq<Outcome>): seq<Book> {
    seq(|outcomes|, k requires 0 <= k < |outcomes| => book.(registry := book.registry + outcomes[..k + 1]))
  }

  /** The writes of one settle call: the outcomes, then the book; none when nothing is open. */
  function Writes(book: Book, t: Tick, maxHold: string -> int): seq<Book> {
    if book.open == [] then []
    else Appends(book, SettledBy(book.open, t, SettlerFor(t, maxHold))) + [Settle(book, t, maxHold)]
  }

  /** A cut settle call is the last write it got to. */
  lemma CutIsAWrite(book: Book, t: Tick, maxHold: string -> int, cut: nat)
    ensures var writes := Writes(book, t, maxHold);
            var done := if cut < |writes| then cut else |writes|;
            SettleCut(book, t, maxHold, cut) == if done == 0 then book else writes[done - 1]
  {
    var outcomes := SettledBy(book.open, t, SettlerFor(t, maxHold));
    assert outcomes[..0] == [] && book.registry + [] == book.registry;
  }

  /** The open book file and the outcome registry; `history` is the book after every write. */
  class Tracker {
    var open: seq<Shadow>
    var registry: seq<Outcome>
    ghost var history: seq<Book>

    constructor ()
      ensures open == [] && registry == [] && history == []
    {
      open, registry, history := [], [], [];
    }

    /** record_blocked_signal. */
    method RecordBlockedSignal(b: Blocked) returns (recorded: Option<Setup>)
      modifies this
      ensures recorded == if Recordable(old(open), b) then BuildPlan(b) else None
      ensures Book(open, registry) == Record(Book(old(open), old(registry)), b)
      ensures history == old(history) + if recorded.Some? then [Book(open, registry)] else []
    {
      var plan := BuildPlan(b);
      if plan.None? {
        return None;
      }
      if exists i :: 0 <= i < |open| && open[i].setup.id == plan.value.id {
        return None;
      }
      if |open| >= MAX_OPEN_COUNTERFACTUALS {
        return None;
      }
      open := open + [Shadow(plan.value, FRESH, None)];
      history := history + [Book(open, registry)];
      recorded := plan;
    }

    /** settle_counterfactuals. */
    method SettleCounterfactuals(t: Tick, maxHold: string -> int) returns (settled: seq<Outcome>)
      modifies this
      ensures settled == SettledBy(old(open), t, SettlerFor(t, maxHold))
      ensures Book(open, registry) == Settle(Book(old(open), old(registry)), t, maxHold)
      ensures history == old(history) + Writes(Book(old(open), old(registry)), t, maxHold)
    {
      var rows, settle := open, SettlerFor(t, maxHold);
      ghost var book := Book(open, registry);
      settled := [];
      if rows == [] {
        return;
      }
      var stillOpen: seq<Shadow> := [];
      for i := 0 to |rows|
        invariant open == old(open) && registry == old(registry) + settled
        invariant history == old(history) + Appends(book, settled)
        invariant stillOpen == Remaining(rows[..i], t, settle) && settled == SettledBy(rows[..i], t, settle)
      {
        assert rows[..i + 1][..i] == rows[..i];
        var (h, exit) := settle(rows[i]);
        var shadow := rows[i].(holding := h);
        if exit.None? {
          stillOpen := stillOpen + [shadow.(lastSeen := t.lastClose)];
        } else {
          var outcome := Outcome(shadow.setup, exit.value, Classify(exit.value.resultR), h.count);
          AppendsSnoc(book, settled, outcome);
          registry, settled := registry + [outcome], settled + [outcome];
          history := history + [Book(open, registry)];
        }
      }
      assert rows[..|rows|] == rows;
      open := stillOpen;
      history := history + [Book(open, registry)];
    }
  }

  lemma AppendsSnoc(book: Book, outcomes: seq<Outcome>, o: Outcome)
    ensures Appends(book, outcomes + [o]) == Appends(book, outcomes) + [book.(registry := book.registry + outcomes + [o])]
  {
    var all := Appends(book, outcomes + [o]);
    forall k | 0 <= k < |outcomes| ensures all[k] == Appends(book, outcomes)[k] {
      assert (outcomes + [o])[..k + 1] == outcomes[..k + 1];
    }
    assert (outcomes + [o])[..|outcomes| + 1] == outcomes + [o];
    assert book.registry + (outcomes + [o]) == book.registry + outcomes + [o];
  }
}
