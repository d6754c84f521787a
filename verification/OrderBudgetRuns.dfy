/** Exactly when the daily budget holds over whole runs (execution/live_order_final_guard.py,
    execution/live_strategy_execution.py): what a crash loses, what midnight misdates, and what the
    loss breaker stops. */
module OrderBudgetRuns {
  import opened Common
  import opened RetryPolicy
  import opened OrderBudget
  import LiveClose
  import LiveLedger

  // ---- orders a crash leaves uncounted ----

  /** A crash between POST and counter write, on an order that reached the book. */
  predicate Loses(d: Desk, e: Event) {
    e.Executes? && e.cut == 2 && |Execute(d, e.input)| == 3 && Landed(e.input)
  }

  function Losses(d: Desk, events: seq<Event>): nat
    decreases |events|
  {
    if events == [] then 0
    else (if Loses(d, events[0]) then 1 else 0) + Losses(Step(d, events[0]), events[1..])
  }

  /** An order that may exist is always one the executor treats as performed. */
  lemma LandedIsPerformed(x: ExecInput)
    requires Landed(x)
    ensures Performed(x.reply, ResolvedAs(x))
  {
    AmbiguousUnlessProven(x.reply);
  }

  /** The order a step sends, if it sends one, counted or not. */
  function Sent(d: Desk, e: Event): seq<Post> {
    if e.Executes? && e.cut >= 2 && |Execute(d, e.input)| >= 2 then
      var x := e.input;
      [PostOf(d, x, if e.cut >= 3 && |Execute(d, x)| == 3 then Some(d.today + x.beforeGuard + x.beforePost + x.beforeRecord) else None)]
    else []
  }

  lemma StepSends(d: Desk, e: Event)
    ensures Step(d, e).posts == d.posts + Sent(d, e)
  {
    if e.Executes? {
      var trace := Execute(d, e.input);
      if 2 <= e.cut < |trace| { assert trace[..e.cut][1] == trace[1]; }
    }
    assert d.posts + [] == d.posts;
  }

  lemma SentCounts(d: Desk, e: Event, q: Question)
    ensures Count(Step(d, e).posts, q) == Count(d.posts, q) + if Sent(d, e) != [] && Holds(q, Sent(d, e)[0]) then 1 else 0
  {
    StepSends(d, e);
    if Sent(d, e) != [] {
      CountSnoc(d.posts, Sent(d, e)[0], q);
      assert Sent(d, e) == [Sent(d, e)[0]];
    } else {
      assert d.posts + [] == d.posts;
    }
  }

  /** An order that landed is always counted when the call runs to its end. */
  lemma LandedIsCounted(d: Desk, x: ExecInput)
    requires |Execute(d, x)| >= 2 && Landed(x)
    ensures |Execute(d, x)| == 3
  {
    LandedIsPerformed(x);
  }

  lemma SentIsLost(d: Desk, e: Event)
    ensures Sent(d, e) != [] && Holds(Lost, Sent(d, e)[0]) <==> Loses(d, e)
    ensures Sent(d, e) != [] && Holds(Misdated, Sent(d, e)[0]) <==> Misdates(d, e)
  {
    if e.Executes? && Landed(e.input) && |Execute(d, e.input)| >= 2 { LandedIsCounted(d, e.input); }
  }

  lemma StepLoses(d: Desk, e: Event)
    ensures Count(Step(d, e).posts, Lost) == Count(d.posts, Lost) + if Loses(d, e) then 1 else 0
  {
    SentCounts(d, e, Lost);
    SentIsLost(d, e);
  }

  /** Conservation: the uncounted orders of a run are exactly those its crashes in the gap left behind. */
  lemma {:induction false} LostAreTheLosses(d: Desk, events: seq<Event>)
    ensures Count(Run(d, events).posts, Lost) == Count(d.posts, Lost) + Losses(d, events)
    decreases |events|
  {
    if events != [] {
      StepLoses(d, events[0]);
      LostAreTheLosses(Step(d, events[0]), events[1..]);
    }
  }

  lemma {:induction false} LostOnIsLost(posts: seq<Post>, day: int)
    ensures Count(posts, LostOn(day)) <= Count(posts, Lost)
  {
    if posts != [] { LostOnIsLost(posts[..|posts| - 1], day); }
  }

  /** A day's entries that may exist at the venue exceed the cap by at most the run's losses. */
  lemma EntriesWithinCapPlusLosses(limits: Limits, today: int, events: seq<Event>, day: int)
    requires limits.maxDaily >= 0
    ensures Count(Run(Start(limits, today), events).posts, LandedOn(day)) <=
            limits.maxDaily + Losses(Start(limits, today), events)
  {
    EntriesWithinCapPlusLost(limits, today, events, day);
    LostAreTheLosses(Start(limits, today), events);
    LostOnIsLost(Run(Start(limits, today), events).posts, day);
  }

  /** Every run with at most `losses` such crashes keeps this day's entries within the cap. */
  predicate CapHolds(limits: Limits, today: int, events: seq<Event>, day: int, losses: nat) {
    limits.maxDaily >= 0 && Losses(Start(limits, today), events) <= losses ==>
      Count(Run(Start(limits, today), events).posts, LandedOn(day)) <= limits.maxDaily
  }

  const ONE_A_DAY := Limits(1, 100.0, 200.0, 1000.0, 50.0)
  const APPROVED := Decision(0, false, true, true, true, Some(LONG), 50.0, 100.0, None)

  /** An executor call whose POST is accepted, counted `late` days after it left. */
  function Accepted(late: nat): ExecInput {
    ExecInput(true, 0.0, [], 0, 0, late, Http(200), true, Up)
  }

  lemma AcceptedExecutes(d: Desk, late: nat)
    requires d.limits == ONE_A_DAY && d.decision == APPROVED.(id := d.decision.id) && CountOn(d.counter, d.today) == 0
    ensures var x := Accepted(late);
            Execute(d, x) == [Marked(d, x), Posted(d, x), Recorded(d, x)] && Realized(d, x) == 0.0
  {
    assert BuildOrderIntent(d.decision).quantity == 2.0;
  }

  /** A new decision, accepted: its POST alone when cut there, counted when run to its end. */
  lemma OneMoreOrder(d: Desk, cut: nat) returns (e: Event, mid: Desk, next: Desk, p: Post)
    requires d.limits == ONE_A_DAY && CountOn(d.counter, d.today) == 0 && 2 <= cut <= 3
    ensures e == Executes(Accepted(0), cut) && mid == Step(d, NewDecision(APPROVED)) && next == Step(mid, e)
    ensures next.posts == d.posts + [p] && Holds(LandedOn(d.today), p)
    ensures next.limits == d.limits && next.today == d.today && (cut == 2 ==> next.counter == d.counter)
    ensures !Loses(d, NewDecision(APPROVED)) && (Loses(mid, e) <==> cut == 2)
  {
    var x := Accepted(0);
    e, mid := Executes(x, cut), Step(d, NewDecision(APPROVED));
    next := Step(mid, e);
    AcceptedExecutes(mid, 0);
    assert Execute(mid, x)[..2][1] == Posted(mid, x);
    p := PostOf(mid, x, if cut == 2 then None else Some(d.today));
  }

  lemma TwoLanded(posts: seq<Post>, a: Post, b: Post, day: int)
    requires posts == [a, b] && Holds(LandedOn(day), a) && Holds(LandedOn(day), b)
    ensures Count(posts, LandedOn(day)) == 2
  {
    assert posts[..1] == [a] && [a][..0] == [];
    assert Count([a], LandedOn(day)) == 1;
  }

  lemma RunOfFour(d: Desk, a: Event, b: Event, c: Event, e: Event)
    ensures Run(d, [a, b, c, e]) == Step(Step(Step(Step(d, a), b), c), e)
    ensures Losses(d, [a, b, c, e]) ==
            (if Loses(d, a) then 1 else 0) + (if Loses(Step(d, a), b) then 1 else 0) +
            (if Loses(Step(Step(d, a), b), c) then 1 else 0) + (if Loses(Step(Step(Step(d, a), b), c), e) then 1 else 0)
  {
    RunCons(Step(Step(Step(d, a), b), c), e, [], [e]);
    RunCons(Step(Step(d, a), b), c, [e], [c, e]);
    RunCons(Step(d, a), b, [c, e], [b, c, e]);
    RunCons(d, a, [b, c, e], [a, b, c, e]);
  }

  /** With a cap of one order a day, a crash between POST and counter write lets a second one out. */
  lemma CrashBreaksTheCap() returns (events: seq<Event>)
    ensures Losses(Start(ONE_A_DAY, 7), events) == 1
    ensures Count(Run(Start(ONE_A_DAY, 7), events).posts, LandedOn(7)) == 2
  {
    var d := Start(ONE_A_DAY, 7);
    var cut, d1, d2, p := OneMoreOrder(d, 2);
    var whole, d3, d4, q := OneMoreOrder(d2, 3);
    events := [NewDecision(APPROVED), cut, NewDecision(APPROVED), whole];
    RunOfFour(d, NewDecision(APPROVED), cut, NewDecision(APPROVED), whole);
    TwoLanded(d4.posts, p, q, 7);
  }

  lemma RunCons(d: Desk, e: Event, rest: seq<Event>, events: seq<Event>)
    requires events == [e] + rest
    ensures Run(d, events) == Run(Step(d, e), rest)
    ensures Losses(d, events) == (if Loses(d, e) then 1 else 0) + Losses(Step(d, e), rest)
  {
    assert events[1..] == rest;
  }

  /** Without losses a day's entries stay within the cap, unresolved submits included. */
  lemma EntriesWithinCap(limits: Limits, today: int, events: seq<Event>, day: int)
    requires limits.maxDaily >= 0 && Losses(Start(limits, today), events) == 0
    ensures Count(Run(Start(limits, today), events).posts, LandedOn(day)) <= limits.maxDaily
  {
    EntriesWithinCapPlusLosses(limits, today, events, day);
  }

  /** The cap on live entries holds for every configuration, run and day exactly when no crash falls between
      POST and counter write of an order that reached the book; unresolved submits are included. */
  lemma CapHoldsExactlyWithoutLosses(losses: nat)
    ensures (forall limits, today, events, day :: CapHolds(limits, today, events, day, losses)) <==> losses == 0
  {
    if losses == 0 {
      forall limits: Limits, today, events, day ensures CapHolds(limits, today, events, day, losses) {
        if limits.maxDaily >= 0 && Losses(Start(limits, today), events) == 0 {
          EntriesWithinCap(limits, today, events, day);
        }
      }
    } else {
      var events := CrashBreaksTheCap();
      assert !CapHolds(ONE_A_DAY, 7, events, 7, losses);
    }
  }

  /** No landed order of a run is uncounted exactly when none was to begin with and no step lost one. */
  lemma NoneLostIffNoLosses(d: Desk, events: seq<Event>)
    ensures Count(Run(d, events).posts, Lost) == 0 <==> Count(d.posts, Lost) == 0 && Losses(d, events) == 0
  {
    LostAreTheLosses(d, events);
  }

  // ---- orders counted on another day ----

  /** A landed order that is lost, or that midnight overtakes between its POST and its counter write. */
  predicate Misdates(d: Desk, e: Event) {
    && e.Executes? && e.cut >= 2 && |Execute(d, e.input)| == 3 && Landed(e.input)
    && (e.cut == 2 || e.input.beforeRecord > 0)
  }

  function Misdatings(d: Desk, events: seq<Event>): nat
    decreases |events|
  {
    if events == [] then 0
    else (if Misdates(d, events[0]) then 1 else 0) + Misdatings(Step(d, events[0]), events[1..])
  }

  lemma StepMisdates(d: Desk, e: Event)
    ensures Count(Step(d, e).posts, Misdated) == Count(d.posts, Misdated) + if Misdates(d, e) then 1 else 0
  {
    SentCounts(d, e, Misdated);
    SentIsLost(d, e);
  }

  lemma {:induction false} MisdatedAreTheMisdatings(d: Desk, events: seq<Event>)
    ensures Count(Run(d, events).posts, Misdated) == Count(d.posts, Misdated) + Misdatings(d, events)
    decreases |events|
  {
    if events != [] {
      StepMisdates(d, events[0]);
      MisdatedAreTheMisdatings(Step(d, events[0]), events[1..]);
    }
  }

  lemma {:induction false} LandedIsRecordedOrMisdated(posts: seq<Post>, day: int)
    ensures Count(posts, LandedOn(day)) <= Count(posts, RecordedOn(day)) + Count(posts, Misdated)
  {
    if posts != [] { LandedIsRecordedOrMisdated(posts[..|posts| - 1], day); }
  }

  /** Over every run and on every day: entries that may exist <= the day's counter + the run's misdatings,
      and the day's counter <= the cap. Without a crash or a midnight in the gap this is the whole chain,
      entries <= counter <= cap. */
  lemma EntriesCounterCap(limits: Limits, today: int, events: seq<Event>, day: int)
    requires limits.maxDaily >= 0
    ensures var d := Run(Start(limits, today), events);
            && Count(d.posts, LandedOn(day)) <= CountOn(d.counter, day) + Misdatings(Start(limits, today), events)
            && CountOn(d.counter, day) <= limits.maxDaily
  {
    EntriesWithinCapPlusLost(limits, today, events, day);
    MisdatedAreTheMisdatings(Start(limits, today), events);
    LandedIsRecordedOrMisdated(Run(Start(limits, today), events).posts, day);
  }

  /** Every counter write comes at most `slack` days after its POST. */
  predicate Prompt(events: seq<Event>, slack: nat) {
    forall i :: 0 <= i < |events| ==> events[i].Executes? ==> events[i].input.beforeRecord <= slack
  }

  /** Every run that loses no order and counts within `slack` days covers this day's entries by this day's counter. */
  predicate Covers(limits: Limits, today: int, events: seq<Event>, day: int, slack: nat) {
    limits.maxDaily >= 0 && Losses(Start(limits, today), events) == 0 && Prompt(events, slack) ==>
      var d := Run(Start(limits, today), events);
      Count(d.posts, LandedOn(day)) <= CountOn(d.counter, day)
  }

  lemma {:induction false} PromptDatesRight(d: Desk, events: seq<Event>)
    requires Prompt(events, 0)
    ensures Misdatings(d, events) == Losses(d, events)
    decreases |events|
  {
    if events != [] {
      assert events[0].Executes? ==> events[0].input.beforeRecord <= 0;
      PromptDatesRight(Step(d, events[0]), events[1..]);
    }
  }

  /** A submit that straddles midnight is counted on the next day only: the day it left has an entry and no count. */
  lemma MidnightEscapesTheCounter() returns (events: seq<Event>)
    ensures Prompt(events, 1) && Losses(Start(ONE_A_DAY, 7), events) == 0
    ensures var d := Run(Start(ONE_A_DAY, 7), events);
            Count(d.posts, LandedOn(7)) == 1 && CountOn(d.counter, 7) == 0
  {
    var x := Accepted(1);
    events := [NewDecision(APPROVED), Executes(x, 3)];
    var d0 := Start(ONE_A_DAY, 7);
    var d1 := Step(d0, events[0]);
    AcceptedExecutes(d1, 1);
    var d2 := Step(d1, events[1]);
    assert d2 == Recorded(d1, x) && !Loses(d1, events[1]);
    RunCons(d1, events[1], [], events[1..]);
    RunCons(d0, events[0], events[1..], events);
    assert d2.posts == [PostOf(d1, x, Some(8))] && d2.posts[..0] == [];
  }

  /** The day's counter covers the day's entries for every configuration, run and day exactly when no counter
      write comes on a later day than its POST. */
  lemma CounterCoversExactlyWithinTheDay(slack: nat)
    ensures (forall limits, today, events, day :: Covers(limits, today, events, day, slack)) <==> slack == 0
  {
    if slack == 0 {
      forall limits: Limits, today, events, day ensures Covers(limits, today, events, day, slack) {
        if limits.maxDaily >= 0 && Prompt(events, 0) {
          PromptDatesRight(Start(limits, today), events);
          EntriesCounterCap(limits, today, events, day);
        }
      }
    } else {
      var events := MidnightEscapesTheCounter();
      assert Prompt(events, slack);
      assert !Covers(ONE_A_DAY, 7, events, 7, slack);
    }
  }

  // ---- the guard ----

  predicate AllLetThrough(d: Desk) {
    forall i :: 0 <= i < |d.posts| ==>
      d.posts[i].sent.Intent? && LetThrough(d.limits, d.posts[i].sent.notional, d.posts[i].sent.quantity, d.posts[i].read)
  }

  lemma StepLetsThrough(d: Desk, e: Event)
    requires AllLetThrough(d)
    ensures AllLetThrough(Step(d, e)) && Step(d, e).limits == d.limits
  {
    if e.Executes? {
      var trace := Execute(d, e.input);
      WritesAre(d, e.input);
      var k := if e.cut >= |trace| then |trace| - 1 else e.cut - 1;
      if k >= 1 { OrderIsTheDecisions(d, e.input, k); }
    }
  }

  lemma {:induction false} RunLetsThrough(d: Desk, events: seq<Event>)
    requires AllLetThrough(d)
    ensures AllLetThrough(Run(d, events)) && Run(d, events).limits == d.limits
    decreases |events|
  {
    if events != [] {
      StepLetsThrough(d, events[0]);
      RunLetsThrough(Step(d, events[0]), events[1..]);
    }
  }

  /** Over every run every order that ever left had passed its guard: the flag, kill-switch and risk-gate checks, the size,
      ceiling, exposure and daily caps, and the loss limit, on what the guard read when it ran. */
  lemma EveryEntryPassedItsGuard(limits: Limits, today: int, events: seq<Event>, i: nat)
    requires i < |Run(Start(limits, today), events).posts|
    ensures var p := Run(Start(limits, today), events).posts[i];
            p.sent.Intent? && LetThrough(limits, p.sent.notional, p.sent.quantity, p.read)
  {
    RunLetsThrough(Start(limits, today), events);
  }

  /** Over every run no entry was ever POSTed whose guard, when it ran, found the day's P&L at the loss limit. */
  lemma NoEntryBeyondTheLossLimit(limits: Limits, today: int, events: seq<Event>, i: nat)
    requires i < |Run(Start(limits, today), events).posts|
    ensures limits.dailyLoss > 0.0 && Run(Start(limits, today), events).posts[i].read.realized > -limits.dailyLoss
  {
    EveryEntryPassedItsGuard(limits, today, events, i);
  }

  /** The breaker and the close protocol together: while no ledger row has been repeated by a crash, an entry
      leaves only if the fills settled so far on that day add up to more than the loss limit allows to lose. */
  lemma EntriesStopAtTheSettledLoss(closes: seq<LiveClose.Event>, d: Desk, x: ExecInput)
    requires LiveLedger.StrandedRows(LiveClose.START, closes) == []
    requires x.ledger == LiveClose.Run(LiveClose.START, closes).ledger && |Execute(d, x)| > 1
    ensures LiveLedger.SumOn(LiveLedger.SettledRows(LiveClose.START, closes), d.today + x.beforeGuard) > -d.limits.dailyLoss
  {
    WritesAre(d, x);
    LiveLedger.DailySumIsSettledPlusStranded(LiveClose.START, closes, d.today + x.beforeGuard);
  }
}
