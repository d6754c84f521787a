/** One decision, at most one order, within the daily budget (execution/order_executor.py,
    execution/live_strategy_execution.py, execution/live_order_final_guard.py). */
module OrderBudget {
  import opened Common
  import opened RetryPolicy
  import LiveClose
  import LiveLedger

  // ---- decision -> intent ----

  /** The persisted trade decision. `direction` is None for anything but LONG or SHORT. */
  datatype Decision = Decision(id: nat, consumed: bool, allow: bool, gateApproved: bool, hasGateId: bool,
                               direction: Option<Direction>, entry: real, notional: real, quantity: Option<real>)

  datatype Side = BUY | SELL

  datatype Rejection = NotAllowed | GateRequired | MalformedDirection | MissingNotional

  datatype Intent = Intent(decisionId: nat, side: Side, entry: real, notional: real, quantity: real)
                  | NoIntent(reason: Rejection)

  /** build_order_intent. */
  function BuildOrderIntent(d: Decision): Intent {
    if !d.allow then NoIntent(NotAllowed)
    else if !d.gateApproved || !d.hasGateId then NoIntent(GateRequired)
    else if d.direction.None? then NoIntent(MalformedDirection)
    else if d.notional <= 0.0 then NoIntent(MissingNotional)
    else
      var quantity := if d.quantity.Some? then d.quantity.value
                      else if d.entry > 0.0 then d.notional / d.entry else 0.0;
      Intent(d.id, if d.direction.value == LONG then BUY else SELL, d.entry, d.notional, quantity)
  }

  // ---- the final guard ----

  datatype Limits = Limits(maxDaily: int, maxNotional: real, ceiling: real, maxOpen: real, dailyLoss: real)

  /** What the guard of a call reads: the checks it cannot see into, the open exposure, the day's count and realized P&L. */
  datatype Reading = Reading(others: bool, openNotional: real, counted: int, realized: real)

  /** evaluate_live_order_final_guard; `others` stands for the flag, key, promotion and risk-gate checks. */
  predicate GuardReady(limits: Limits, intent: Intent, read: Reading) {
    && read.others && !LiveLedger.LimitReached(Some(limits.dailyLoss), read.realized) && intent.Intent? && intent.quantity > 0.0
    && 0.0 < limits.maxNotional <= limits.ceiling && 0.0 < intent.notional <= Min(limits.maxNotional, limits.ceiling)
    && 0 < limits.maxDaily && read.counted < limits.maxDaily
    && 0.0 < limits.maxOpen && read.openNotional + intent.notional <= limits.maxOpen
  }

  // ---- the order desk ----

  /** An entry order POSTed to the venue: for which decision, as what order, on what reading of its guard, the day it left,
      whether it reached the book, and the day record_submission counted it (None while uncounted). */
  datatype Post = Post(decisionId: nat, sent: Intent, read: Reading, postedOn: int, landed: bool, recordedOn: Option<int>)

  /** Decision file, daily counter file, clock, and the history of POSTs. */
  datatype Desk = Desk(limits: Limits, decision: Decision, counter: map<int, int>, posts: seq<Post>,
                       today: int, nextId: nat)

  /** What one executor call meets: the outcome ledger its guard reads, the days that pass before the guard,
      before the POST and before the counter write, and how the POST and the resolving query go. */
  datatype ExecInput = ExecInput(others: bool, openNotional: real, ledger: seq<LiveClose.Row>, beforeGuard: nat,
                                 beforePost: nat, beforeRecord: nat, reply: PostReply, lands: bool, link: Link)

  predicate Landed(x: ExecInput) {
    Submitted(x.reply) || (x.lands && !ProvesNoOrder(x.reply))
  }

  function ResolvedAs(x: ExecInput): Existence {
    match x.link
    case Up => if Landed(x) then Exists else Absent
    case Garbled => Exists
    case Down => Unresolved
  }

  function CountOn(counter: map<int, int>, day: int): int {
    if day in counter then counter[day] else 0
  }

  /** What the loss breaker reads when the guard of this call runs. */
  function Realized(d: Desk, x: ExecInput): real {
    LiveLedger.SumOn(x.ledger, d.today + x.beforeGuard)
  }

  function ReadingOf(d: Desk, x: ExecInput): Reading {
    Reading(x.others, x.openNotional, CountOn(d.counter, d.today + x.beforeGuard), Realized(d, x))
  }

  /** The order as it leaves, counted or not. */
  function PostOf(d: Desk, x: ExecInput, recordedOn: Option<int>): Post {
    Post(d.decision.id, BuildOrderIntent(d.decision), ReadingOf(d, x), d.today + x.beforeGuard + x.beforePost, Landed(x), recordedOn)
  }

  /** The decision is marked consumed before anything is executed. */
  function Marked(d: Desk, x: ExecInput): Desk {
    d.(decision := d.decision.(consumed := true), today := d.today + x.beforeGuard)
  }

  /** The POST has left. */
  function Posted(d: Desk, x: ExecInput): Desk {
    var day := d.today + x.beforeGuard + x.beforePost;
    Marked(d, x).(posts := d.posts + [PostOf(d, x, None)], today := day)
  }

  /** The submission is counted on the day it is recorded. */
  function Recorded(d: Desk, x: ExecInput): Desk {
    var left := d.today + x.beforeGuard + x.beforePost;
    var day := left + x.beforeRecord;
    Marked(d, x).(posts := d.posts + [PostOf(d, x, Some(day))], today := day,
                  counter := d.counter[day := CountOn(d.counter, day) + 1])
  }

  /** run_order_executor on the live stage: the desks it leaves after marking the decision
      consumed, after the POST, and after counting it. */
  function Execute(d: Desk, x: ExecInput): seq<Desk> {
    var intent := BuildOrderIntent(d.decision);
    if d.decision.consumed || intent.NoIntent? then []
    else if !GuardReady(d.limits, intent, ReadingOf(d, x)) then [Marked(d, x)]
    else if Performed(x.reply, ResolvedAs(x)) then [Marked(d, x), Posted(d, x), Recorded(d, x)]
    else [Marked(d, x), Posted(d, x)]
  }

  /** The bridge writes a new decision; the executor runs, cut after `cut` effects by a crash; days pass. */
  datatype Event = NewDecision(decision: Decision) | Executes(input: ExecInput, cut: nat) | DaysPass(days: nat)

  function Last(d: Desk, trace: seq<Desk>): Desk {
    if trace == [] then d else trace[|trace| - 1]
  }

  function Step(d: Desk, e: Event): Desk {
    match e
    case NewDecision(decision) => d.(decision := decision.(id := d.nextId, consumed := false), nextId := d.nextId + 1)
    case Executes(x, cut) => var trace := Execute(d, x); if cut >= |trace| then Last(d, trace) else Last(d, trace[..cut])
    case DaysPass(days) => d.(today := d.today + days)
  }

  function Run(d: Desk, events: seq<Event>): Desk
    decreases |events|
  {
    if events == [] then d else Run(Step(d, events[0]), events[1..])
  }

  function Start(limits: Limits, today: int): Desk {
    Desk(limits, Decision(0, true, false, false, false, None, 0.0, 0.0, None), map[], [], today, 1)
  }

  // ---- counting ----

  datatype Question = RecordedOn(day: int) | LandedOn(day: int) | CountedOn(day: int) | LostOn(day: int) | Lost | Misdated

  /** RecordedOn: counted that day. LandedOn: POSTed that day and may exist at the venue.
      CountedOn and LostOn: the landed orders of a day that were counted (on any day), and that never were.
      Lost and Misdated: the landed orders of any day that were never counted, and not on the day they left. */
  predicate Holds(q: Question, p: Post) {
    match q
    case RecordedOn(day) => p.recordedOn == Some(day)
    case LandedOn(day) => p.landed && p.postedOn == day
    case CountedOn(day) => p.landed && p.postedOn == day && p.recordedOn.Some?
    case LostOn(day) => p.landed && p.postedOn == day && p.recordedOn.None?
    case Lost => p.landed && p.recordedOn.None?
    case Misdated => p.landed && p.recordedOn != Some(p.postedOn)
  }

  function Count(posts: seq<Post>, q: Question): nat {
    if posts == [] then 0
    else Count(posts[..|posts| - 1], q) + if Holds(q, posts[|posts| - 1]) then 1 else 0
  }

  lemma CountSnoc(posts: seq<Post>, p: Post, q: Question)
    ensures Count(posts + [p], q) == Count(posts, q) + if Holds(q, p) then 1 else 0
  {
  }

  lemma {:induction false} LandedIsCountedPlusLost(posts: seq<Post>, day: int)
    ensures Count(posts, LandedOn(day)) == Count(posts, CountedOn(day)) + Count(posts, LostOn(day))
  {
    if posts != [] { LandedIsCountedPlusLost(posts[..|posts| - 1], day); }
  }

  /** Every post left and was counted on a day that has come, in that order. */
  predicate Dated(posts: seq<Post>, today: int) {
    forall i :: 0 <= i < |posts| ==>
      && posts[i].postedOn <= today
      && (posts[i].recordedOn.Some? ==> posts[i].postedOn <= posts[i].recordedOn.value <= today)
  }

  lemma {:induction false} TodaysCountedAreRecorded(posts: seq<Post>, today: int, day: int)
    requires Dated(posts, today) && today <= day
    ensures Count(posts, CountedOn(day)) <= Count(posts, RecordedOn(day))
    ensures today < day ==> Count(posts, RecordedOn(day)) == 0
  {
    if posts != [] {
      assert Dated(posts[..|posts| - 1], today);
      TodaysCountedAreRecorded(posts[..|posts| - 1], today, day);
    }
  }

  // ---- invariant ----

  /** No two posts share a decision, and an unconsumed decision has no post. */
  predicate OncePerDecision(d: Desk) {
    && d.decision.id < d.nextId
    && (forall i :: 0 <= i < |d.posts| ==> d.posts[i].decisionId < d.nextId)
    && (forall i, j :: 0 <= i < j < |d.posts| ==> d.posts[i].decisionId != d.posts[j].decisionId)
    && (!d.decision.consumed ==> forall i :: 0 <= i < |d.posts| ==> d.posts[i].decisionId != d.decision.id)
  }

  ghost predicate Budgeted(d: Desk) {
    && Dated(d.posts, d.today)
    && (forall day :: CountOn(d.counter, day) == Count(d.posts, RecordedOn(day)))
    && (forall day :: Count(d.posts, RecordedOn(day)) <= Cap(d))
    && (forall day :: Count(d.posts, CountedOn(day)) <= Cap(d))
  }

  function Cap(d: Desk): int {
    if d.limits.maxDaily > 0 then d.limits.maxDaily else 0
  }

  ghost predicate Inv(d: Desk) {
    OncePerDecision(d) && Budgeted(d)
  }

  lemma DatedLater(posts: seq<Post>, today: int, later: int)
    requires Dated(posts, today) && today <= later
    ensures Dated(posts, later)
  {
  }

  /** What one more counted order does to the figures of one day. */
  lemma RecordingCounts(d: Desk, p: Post, guardDay: int, d': Desk, day: int)
    requires Budgeted(d) && p.recordedOn.Some?
    requires d.today <= guardDay <= p.postedOn <= p.recordedOn.value
    requires CountOn(d.counter, guardDay) < d.limits.maxDaily && d'.posts == d.posts + [p]
    requires d'.counter == d.counter[p.recordedOn.value := CountOn(d.counter, p.recordedOn.value) + 1]
    ensures Count(d'.posts, RecordedOn(day)) == CountOn(d'.counter, day) <= Cap(d)
    ensures Count(d'.posts, CountedOn(day)) <= Cap(d)
  {
    TodaysCountedAreRecorded(d.posts, d.today, p.postedOn);
    TodaysCountedAreRecorded(d.posts, d.today, p.recordedOn.value);
    CountSnoc(d.posts, p, RecordedOn(day));
    CountSnoc(d.posts, p, CountedOn(day));
    assert CountOn(d.counter, day) == Count(d.posts, RecordedOn(day));
    assert CountOn(d.counter, guardDay) == Count(d.posts, RecordedOn(guardDay));
  }

  /** Counting an order approved by the guard keeps every day within the cap, midnight or not. */
  lemma RecordingKeeps(d: Desk, p: Post, guardDay: int, d': Desk)
    requires Budgeted(d) && p.recordedOn.Some?
    requires d.today <= guardDay <= p.postedOn <= p.recordedOn.value
    requires CountOn(d.counter, guardDay) < d.limits.maxDaily && d'.posts == d.posts + [p]
    requires d'.counter == d.counter[p.recordedOn.value := CountOn(d.counter, p.recordedOn.value) + 1]
    requires d'.today == p.recordedOn.value && d'.limits == d.limits
    ensures Budgeted(d')
  {
    DatedLater(d.posts, d.today, d'.today);
    forall day ensures Count(d'.posts, RecordedOn(day)) == CountOn(d'.counter, day) <= Cap(d)
               ensures Count(d'.posts, CountedOn(day)) <= Cap(d) {
      RecordingCounts(d, p, guardDay, d', day);
    }
  }

  lemma ExecuteOnce(d: Desk, x: ExecInput, k: nat)
    requires OncePerDecision(d) && k < |Execute(d, x)|
    ensures OncePerDecision(Execute(d, x)[k])
  {
  }

  lemma WaitingKeeps(d: Desk, d': Desk)
    requires Budgeted(d) && d.today <= d'.today
    requires d'.counter == d.counter && d'.posts == d.posts && d'.limits == d.limits
    ensures Budgeted(d')
  {
  }

  lemma RecordedBudgeted(d: Desk, x: ExecInput)
    requires Budgeted(d) && CountOn(d.counter, d.today + x.beforeGuard) < d.limits.maxDaily
    ensures Budgeted(Recorded(d, x))
  {
    var left := d.today + x.beforeGuard + x.beforePost;
    RecordingKeeps(d, PostOf(d, x, Some(left + x.beforeRecord)),
                   d.today + x.beforeGuard, Recorded(d, x));
  }

  lemma PostedBudgeted(d: Desk, x: ExecInput)
    requires Budgeted(d)
    ensures Budgeted(Posted(d, x))
  {
  }

  lemma ExecuteBudgeted(d: Desk, x: ExecInput, k: nat)
    requires Budgeted(d) && k < |Execute(d, x)|
    ensures Budgeted(Execute(d, x)[k])
  {
    match k
    case 0 => WaitingKeeps(d, Marked(d, x));
    case 1 => PostedBudgeted(d, x);
    case _ => RecordedBudgeted(d, x);
  }

  lemma StepKeeps(d: Desk, e: Event)
    requires Inv(d)
    ensures Inv(Step(d, e)) && Step(d, e).limits == d.limits
  {
    match e
    case NewDecision(_) => WaitingKeeps(d, Step(d, e));
    case DaysPass(_) => WaitingKeeps(d, Step(d, e));
    case Executes(x, cut) =>
      var n := |Execute(d, x)|;
      var k := if cut >= n then n - 1 else cut - 1;
      if k >= 0 { ExecuteOnce(d, x, k); ExecuteBudgeted(d, x, k); }
  }

  lemma {:induction false} RunKeeps(d: Desk, events: seq<Event>)
    requires Inv(d)
    ensures Inv(Run(d, events)) && Run(d, events).limits == d.limits
    decreases |events|
  {
    if events != [] {
      StepKeeps(d, events[0]);
      RunKeeps(Step(d, events[0]), events[1..]);
    }
  }

  // ---- theorems ----

  /** Crashes and re-runs included, no decision is ever submitted twice. */
  lemma OneDecisionOneOrder(limits: Limits, today: int, events: seq<Event>, i: nat, j: nat)
    requires i < j < |Run(Start(limits, today), events).posts|
    ensures var posts := Run(Start(limits, today), events).posts; posts[i].decisionId != posts[j].decisionId
  {
    RunKeeps(Start(limits, today), events);
  }

  /** On every day the orders that may exist at the venue exceed the cap by at most
      the orders a crash left uncounted, and the day's counter never exceeds the cap. */
  lemma EntriesWithinCapPlusLost(limits: Limits, today: int, events: seq<Event>, day: int)
    requires limits.maxDaily >= 0
    ensures var d := Run(Start(limits, today), events);
            && Count(d.posts, LandedOn(day)) <= limits.maxDaily + Count(d.posts, LostOn(day))
            && CountOn(d.counter, day) == Count(d.posts, RecordedOn(day)) <= limits.maxDaily
  {
    var d := Run(Start(limits, today), events);
    RunKeeps(Start(limits, today), events);
    LandedIsCountedPlusLost(d.posts, day);
  }

  /** The decision asks for an order: it is allowed and gate-approved, names its gate and a direction, and has a size. */
  predicate AsksForOrder(d: Decision) {
    d.allow && d.gateApproved && d.hasGateId && d.direction.Some? && d.notional > 0.0
  }

  /** The decision's own quantity, or else what its notional buys at its entry price. */
  function QuantityAsked(d: Decision): real {
    match d.quantity
    case Some(q) => q
    case None => if d.entry <= 0.0 then 0.0 else d.notional / d.entry
  }

  /** The order is the decision's. */
  predicate IsOrderOf(order: Intent, d: Decision) {
    && order.Intent? && order.decisionId == d.id && order.entry == d.entry && order.notional == d.notional
    && order.quantity == QuantityAsked(d)
    && (order.side == BUY <==> d.direction == Some(LONG)) && (order.side == SELL <==> d.direction == Some(SHORT))
  }

  /** Every condition on an order and on what its guard read. */
  predicate LetThrough(limits: Limits, notional: real, quantity: real, read: Reading) {
    && read.others && quantity > 0.0
    && limits.dailyLoss > 0.0 && read.realized > -limits.dailyLoss
    && limits.maxNotional > 0.0 && limits.maxNotional <= limits.ceiling && 0.0 < notional && notional <= limits.maxNotional
    && limits.maxDaily > 0 && read.counted < limits.maxDaily
    && limits.maxOpen > 0.0 && read.openNotional + notional <= limits.maxOpen
  }

  /** What the guard of this call reads is what the files say when it runs. */
  predicate ReadsTheFiles(d: Desk, x: ExecInput, read: Reading) {
    var day := d.today + x.beforeGuard;
    && read.others == x.others && read.openNotional == x.openNotional && read.realized == LiveLedger.SumOn(x.ledger, day)
    && read.counted == if day in d.counter then d.counter[day] else 0
  }

  /** The venue may have the order: it accepted it, or its reply leaves that open and no query said otherwise. */
  predicate MayExist(x: ExecInput) {
    match x.reply
    case Raised(_) => x.link != Up || x.lands
    case Http(status) => 200 <= status < 300 || (!(400 <= status < 500 && status != 429) && (x.link != Up || x.lands))
  }

  /** The writes of one call, in the fields of the decision and of what is read. A decision that asks for an order is consumed;
      its order leaves exactly if everything lets it through; it is counted exactly if the venue may have it. */
  lemma WritesAre(d: Desk, x: ExecInput)
    ensures var trace, read := Execute(d, x), ReadingOf(d, x);
            && ReadsTheFiles(d, x, read)
            && (|trace| > 0 <==> !d.decision.consumed && AsksForOrder(d.decision))
            && (|trace| > 1 <==> |trace| > 0 && LetThrough(d.limits, d.decision.notional, QuantityAsked(d.decision), read))
            && (|trace| > 2 <==> |trace| > 1 && MayExist(x)) && |trace| <= 3
            && (|trace| > 0 ==> trace[0] == d.(decision := d.decision.(consumed := true), today := d.today + x.beforeGuard))
  {
    assert |Execute(d, x)| > 2 ==> Performed(x.reply, ResolvedAs(x));
  }

  /** The order that leaves is the decision's own, on the reading of its guard. */
  lemma OrderIsTheDecisions(d: Desk, x: ExecInput, k: nat)
    requires 0 < k < |Execute(d, x)|
    ensures var posts := Execute(d, x)[k].posts;
            && |posts| == |d.posts| + 1 && posts[..|d.posts|] == d.posts
            && posts[|d.posts|].decisionId == d.decision.id && IsOrderOf(posts[|d.posts|].sent, d.decision)
            && ReadsTheFiles(d, x, posts[|d.posts|].read)
            && posts[|d.posts|].postedOn == d.today + x.beforeGuard + x.beforePost
  {
  }

  /** Everything that ever left was within the size, ceiling and exposure caps at that moment, and past every check. */
  lemma PostedWithinNotionalCaps(d: Desk, x: ExecInput)
    requires |Execute(d, x)| > 1
    ensures 0.0 < d.decision.notional <= Min(d.limits.maxNotional, d.limits.ceiling)
    ensures x.openNotional + d.decision.notional <= d.limits.maxOpen
    ensures x.others && d.decision.gateApproved && d.decision.direction.Some? && !d.decision.consumed
  {
    WritesAre(d, x);
  }

  /** The budget also lets through what it should: an approved decision that passes the guard and whose POST
      is accepted leaves one order of that decision, counted today, and executing it again does nothing. */
  lemma ApprovedDecisionIsSubmittedOnce(d: Desk, x: ExecInput, again: ExecInput)
    requires !d.decision.consumed && BuildOrderIntent(d.decision).Intent? && Submitted(x.reply)
    requires x.beforeGuard == x.beforePost == x.beforeRecord == 0
    requires GuardReady(d.limits, BuildOrderIntent(d.decision), ReadingOf(d, x))
    ensures var after := Last(d, Execute(d, x));
            && after.posts == d.posts + [Post(d.decision.id, BuildOrderIntent(d.decision), ReadingOf(d, x), d.today, true, Some(d.today))]
            && after.counter == d.counter[d.today := CountOn(d.counter, d.today) + 1]
            && Execute(after, again) == []
  {
  }

  // ---- the executor as it runs ----

  class OrderExecutor {
    const limits: Limits
    var decision: Decision         // trade_decision.json
    var counter: map<int, int>     // live_strategy_order_counter.json
    var today: int
    var nextId: nat
    var posts: seq<Post>
    ghost var history: seq<Desk>

    ghost function State(): Desk
      reads this
    {
      Desk(limits, decision, counter, posts, today, nextId)
    }

    constructor (limits: Limits, today: int)
      ensures State() == Start(limits, today) && history == []
    {
      this.limits, this.today := limits, today;
      decision := Decision(0, true, false, false, false, None, 0.0, 0.0, None);
      counter, posts, nextId, history := map[], [], 1, [];
    }

    /** The decision is consumed on disk before anything is executed. */
    method MarkConsumed(x: ExecInput)
      modifies this
      ensures State() == Marked(old(State()), x) && history == old(history) + [State()]
    {
      today := today + x.beforeGuard;
      decision := decision.(consumed := true);
      history := history + [State()];
    }

    /** The POST, and what its reply or the resolving query says about it. */
    method PostEntry(x: ExecInput, intent: Intent, read: Reading) returns (performed: bool)
      modifies this
      ensures var day := old(today) + x.beforePost;
              State() == old(State()).(posts := old(posts) + [Post(decision.id, intent, read, day, Landed(x), None)], today := day)
      ensures history == old(history) + [State()]
      ensures performed == Performed(x.reply, ResolvedAs(x))
    {
      today := today + x.beforePost;
      posts := posts + [Post(decision.id, intent, read, today, Landed(x), None)];
      history := history + [State()];
      performed := Submitted(x.reply);
      if IsAmbiguousSubmit(x.reply) {
        performed := ResolvedAs(x) != Absent;
      }
    }

    /** record_submission. */
    method RecordSubmission() returns (count: int)
      modifies this`counter
      ensures counter == old(counter)[today := CountOn(old(counter), today) + 1] && count == counter[today]
    {
      counter := counter[today := CountOn(counter, today) + 1];
      count := counter[today];
    }

    /** The order just sent is counted on the day this runs. */
    method CountEntry(x: ExecInput, ghost sent: seq<Post>, ghost entry: Post)
      requires posts == sent + [entry]
      modifies this
      ensures var day := old(today) + x.beforeRecord;
              State() == old(State()).(today := day, posts := sent + [entry.(recordedOn := Some(day))],
                                       counter := old(counter)[day := CountOn(old(counter), day) + 1])
      ensures history == old(history) + [State()]
    {
      today := today + x.beforeRecord;
      var _ := RecordSubmission();
      posts := posts[|posts| - 1 := posts[|posts| - 1].(recordedOn := Some(today))];
      history := history + [State()];
    }

    /** run_order_executor, through the live adapter. */
    method RunOrderExecutor(x: ExecInput)
      modifies this
      ensures State() == Last(old(State()), Execute(old(State()), x))
      ensures history == old(history) + Execute(old(State()), x)
    {
      ghost var d := State();
      if decision.consumed {
        return;
      }
      var intent := BuildOrderIntent(decision);
      if intent.NoIntent? {
        return;
      }
      MarkConsumed(x);
      var realized := LiveLedger.LiveDailyRealizedPnl(x.ledger, today);
      var read := Reading(x.others, x.openNotional, CountOn(counter, today), realized);
      if !GuardReady(limits, intent, read) {
        return;
      }
      var performed := PostEntry(x, intent, read);
      assert State() == Posted(d, x);
      if performed {
        CountEntry(x, d.posts, posts[|d.posts|]);
        assert State() == Recorded(d, x);
      }
    }
  }
}
