/** A close id that was ever dropped can never fill again, whatever happens later. */
module LiveCloseFinality {
  import opened Common
  import opened PositionKernel
  import opened LiveClose
  import opened LiveCloseSafety

  /** Ids below c that are retired in w are still retired in u, and those that are spent still spent. */
  predicate StaysRetired(c: nat, w: World, u: World) {
    && c <= u.clock
    && (forall id: nat :: id < c && Retired(w, id) ==> Retired(u, id))
    && (forall id: nat :: id < c && Spent(w, id) ==> Spent(u, id))
  }

  predicate AllStay(c: nat, w: World, trace: seq<World>) {
    forall i :: 0 <= i < |trace| ==> StaysRetired(c, w, trace[i])
  }

  lemma AllStayThen(c: nat, w: World, a: seq<World>, b: seq<World>)
    requires AllStay(c, w, a) && AllStay(c, Last(w, a), b)
    ensures AllStay(c, w, a + b)
  {
  }

  lemma AskStays(c: nat, w: World, id: Id, talk: Talk)
    requires c <= w.clock
    ensures StaysRetired(c, w, Ask(w, id, talk).0)
  {
  }

  lemma PostStays(c: nat, w: World, id: Id, positionId: Id, t: PostTalk)
    requires c <= w.clock && c <= id
    ensures StaysRetired(c, w, PostClose(w, id, positionId, t))
  {
  }

  lemma ResolveStays(c: nat, w: World, p: Position, x: CycleInput)
    requires c <= w.clock
    ensures AllStay(c, w, ResolvePending(w, p, x).0.trace)
  {
    if p.pending.Some? {
      AskStays(c, w, p.pending.value.id, x.pendingTalk);
    }
  }

  lemma SubmitStays(c: nat, w: World, id: Id, p: Position, x: CycleInput)
    requires c <= w.clock && c <= id
    ensures AllStay(c, w, SubmitClose(w, id, p, x).0)
  {
    PostStays(c, w, id, p.id, x.post);
    var w1 := PostClose(w, id, p.id, x.post);
    AskStays(c, w1, id, x.resolveTalk);
  }

  lemma ReadBackStays(c: nat, w: World, p: Position, id: Id, x: CycleInput)
    requires c <= w.clock
    ensures AllStay(c, w, ReadBack(w, p, id, x).trace)
  {
    AskStays(c, w, id, x.readBack);
  }

  lemma FreshStays(c: nat, w: World, p: Position, reason: Reason, x: CycleInput)
    requires c <= w.clock
    ensures AllStay(c, w, FreshClose(w, p, reason, x).trace)
  {
    var p', ahead, sent, performed, w1, tail := FreshCloseParts(w, p, reason, x);
    SubmitStays(c, ahead, w.clock, p', x);
    assert Last(w, [ahead]) == ahead;
    AllStayThen(c, w, [ahead], sent);
    LastOfBoth(w, [ahead], sent);
    assert AllStay(c, w1, tail.trace) by {
      if performed { ReadBackStays(c, w1, p', w.clock, x); }
    }
    AllStayThen(c, w, [ahead] + sent, tail.trace);
  }

  lemma DecideStays(c: nat, w: World, p: Position, x: CycleInput)
    requires c <= w.clock
    ensures AllStay(c, w, Decide(w, p, x).trace)
  {
    var (holding, reason) := ExitSignal(p.plan, p.holding, x.tick);
    if reason.Some? {
      FreshStays(c, w, p.(holding := holding), reason.value, x);
    }
  }

  lemma CycleStays(c: nat, w: World, x: CycleInput)
    requires c <= w.clock
    ensures AllStay(c, w, SettleCycle(w, x).trace)
  {
    if w.pos.Some? {
      var resolved, live, w1, decided := CycleParts(w, x);
      ResolveStays(c, w, w.pos.value, x);
      if live.Some? {
        DecideStays(c, w1, live.value, x);
        AllStayThen(c, w, resolved.trace, decided.trace);
      }
    }
  }

  lemma StepStays(c: nat, w: World, e: Event)
    requires c <= w.clock
    ensures StaysRetired(c, w, Step(w, e))
  {
    match e
    case Opens(_) =>
    case VenueMoves(wish) => EvolveRetires(w, Step(w, e), wish);
    case Settles(x, cut) => CycleStays(c, w, x);
  }

  /** Once an id below the clock is retired it stays retired in every later state. */
  lemma {:induction false} RetiredForGood(c: nat, w: World, events: seq<Event>)
    requires c <= w.clock
    ensures StaysRetired(c, w, Run(w, events))
    decreases |events|
  {
    if events != [] {
      StepStays(c, w, events[0]);
      RetiredForGood(c, Step(w, events[0]), events[1..]);
    }
  }

  /** A close the open position no longer remembers is dead in every continuation of the run. */
  lemma ForgottenCloseNeverFills(before: seq<Event>, p: Position, id: Id, later: seq<Event>)
    requires var w := Run(START, before);
             w.pos == Some(p) && id in w.posted && w.posted[id] == p.id &&
             !(p.pending.Some? && p.pending.value.id == id)
    ensures Retired(Run(Run(START, before), later), id)
  {
    var w := Run(START, before);
    RunKeeps(START, before);
    assert NoRace(w, p);
    RetiredForGood(w.clock, w, later);
  }
}
