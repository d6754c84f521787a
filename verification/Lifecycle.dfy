/** The strategy lifecycle: one decision (feedback/strategy_lifecycle_agent.py) and the driver
    that repeats it over the pool (feedback/strategy_feedback_step.py). */
module Lifecycle {
  import opened Common

  datatype Status = PaperActive | Warning | Probation | Suspended | Archived | OtherStatus

  predicate Terminal(s: Status) {
    s == Suspended || s == Archived
  }

  predicate Occupying(s: Status) {
    s == PaperActive || s == Warning || s == Probation
  }

  /** A rolling window's figures, None where the report has none. */
  datatype Window = Window(full: bool, expectancyR: Option<real>, profitFactor: Option<real>)

  datatype Performance = Performance(warn: Option<Window>, probation: Option<Window>, suspend: Option<Window>,
                                     winRateDrop: Option<real>, lifetimeTrades: int, lifetimeExpectancyR: Option<real>)

  const SUSPEND_CONSECUTIVE := 2
  const ARCHIVE_CONSECUTIVE := 3
  const ARCHIVE_MIN_TRADES := 100

  predicate Below(value: Option<real>, bound: real) {
    value.Some? && value.value < bound
  }

  predicate AtMost(value: Option<real>, bound: real) {
    value.Some? && value.value <= bound
  }

  predicate Full(w: Option<Window>) {
    w.Some? && w.value.full
  }

  predicate Warns(p: Performance) {
    Full(p.warn) && (Below(p.warn.value.expectancyR, 0.0) || Below(p.warn.value.profitFactor, 1.0))
  }

  predicate Probates(p: Performance) {
    || (Full(p.probation) && (AtMost(p.probation.value.expectancyR, -0.05) || Below(p.probation.value.profitFactor, 0.9)))
    || (p.winRateDrop.Some? && p.winRateDrop.value > 0.15)
  }

  predicate SuspendMetrics(p: Performance) {
    Full(p.suspend) && Below(p.suspend.value.expectancyR, 0.0) && Below(p.suspend.value.profitFactor, 0.9)
  }

  predicate ArchiveMetrics(p: Performance) {
    p.lifetimeTrades >= ARCHIVE_MIN_TRADES && Below(p.lifetimeExpectancyR, 0.0)
  }

  predicate Failing(p: Performance) {
    Warns(p) || Probates(p)
  }

  datatype Decision = Decision(status: Status, failures: nat)

  /** evaluate_lifecycle. */
  function Evaluate(status: Status, p: Performance, failures: nat): Decision {
    var streak := if Failing(p) then failures + 1 else 0;
    var next :=
      if Terminal(status) then status
      else if ArchiveMetrics(p) && streak >= ARCHIVE_CONSECUTIVE then Archived
      else if SuspendMetrics(p) && streak >= SUSPEND_CONSECUTIVE then Suspended
      else if Probates(p) then Probation
      else if Warns(p) then Warning
      else PaperActive;
    Decision(next, streak)
  }

  datatype Entry = Entry(status: Status, failures: nat)

  /** The performance of each pool entry at one run of the driver. */
  type Report = nat -> Performance

  function Evaluated(e: Entry, p: Performance): Entry {
    if Occupying(e.status) then
      var d := Evaluate(e.status, p, e.failures);
      Entry(d.status, d.failures)
    else e
  }

  function EvaluateAll(pool: seq<Entry>, report: Report): (next: seq<Entry>)
    ensures |next| == |pool| && forall i :: 0 <= i < |pool| ==> next[i] == Evaluated(pool[i], report(i))
  {
    seq(|pool|, i requires 0 <= i < |pool| => Evaluated(pool[i], report(i)))
  }

  /** Some entry changes status, which is when the driver saves the pool. */
  predicate Saves(pool: seq<Entry>, report: Report) {
    exists i :: 0 <= i < |pool| && Evaluated(pool[i], report(i)).status != pool[i].status
  }

  function Feedback(pool: seq<Entry>, report: Report): (next: seq<Entry>)
    ensures |next| == |pool|
  {
    if Saves(pool, report) then EvaluateAll(pool, report) else pool
  }

  function CountOccupying(pool: seq<Entry>, n: nat): nat
    requires n <= |pool|
  {
    if n == 0 then 0 else CountOccupying(pool, n - 1) + if Occupying(pool[n - 1].status) then 1 else 0
  }

  /** Entries of the first n whose status this run changes. */
  function CountChanged(pool: seq<Entry>, report: Report, n: nat): nat
    requires n <= |pool|
  {
    if n == 0 then 0
    else CountChanged(pool, report, n - 1) + if Evaluated(pool[n - 1], report(n - 1)).status != pool[n - 1].status then 1 else 0
  }

  lemma {:induction false} ChangedIffSaves(pool: seq<Entry>, report: Report, n: nat)
    requires n <= |pool|
    ensures CountChanged(pool, report, n) > 0 <==>
            exists k :: 0 <= k < n && Evaluated(pool[k], report(k)).status != pool[k].status
  {
    if n > 0 { ChangedIffSaves(pool, report, n - 1); }
  }

  /** The pool file. */
  class LifecycleDriver {
    var pool: seq<Entry>

    constructor (pool: seq<Entry>)
      ensures this.pool == pool
    {
      this.pool := pool;
    }

    /** run_strategy_lifecycle_feedback: entries are updated in memory, and written back only if a status changed. */
    method RunFeedback(report: Report) returns (evaluated: nat, statusChanges: nat)
      modifies this
      ensures pool == Feedback(old(pool), report)
      ensures evaluated == CountOccupying(old(pool), |old(pool)|) && statusChanges == CountChanged(old(pool), report, |old(pool)|)
    {
      var entries := pool;
      evaluated, statusChanges := 0, 0;
      for i := 0 to |pool|
        invariant |entries| == |pool| == |old(pool)| && pool == old(pool)
        invariant evaluated == CountOccupying(pool, i) && statusChanges == CountChanged(pool, report, i)
        invariant forall k :: 0 <= k < |pool| ==> entries[k] == if k < i then Evaluated(pool[k], report(k)) else pool[k]
      {
        var entry := entries[i];
        if Occupying(entry.status) {
          var decision := Evaluate(entry.status, report(i), entry.failures);
          entries := entries[i := Entry(entry.status, decision.failures)];
          evaluated := evaluated + 1;
          if decision.status != entry.status {
            entries := entries[i := Entry(decision.status, decision.failures)];
            statusChanges := statusChanges + 1;
          }
        }
      }
      ChangedIffSaves(pool, report, |pool|);
      if statusChanges > 0 {
        assert entries == EvaluateAll(pool, report);
        pool := entries;
      }
    }
  }

  // ---- whole runs ----

  function RunAll(pool: seq<Entry>, reports: seq<Report>): (final: seq<Entry>)
    ensures |final| == |pool|
  {
    if reports == [] then pool else Feedback(RunAll(pool, reports[..|reports| - 1]), reports[|reports| - 1])
  }

  /** The consecutive failing evaluations of entry i up to now, whatever was stored. */
  function TrueStreak(pool: seq<Entry>, reports: seq<Report>, i: nat): nat
    requires i < |pool|
  {
    if reports == [] then pool[i].failures
    else
      var before, last := reports[..|reports| - 1], reports[|reports| - 1](i);
      if !Occupying(RunAll(pool, before)[i].status) then TrueStreak(pool, before, i)
      else if Failing(last) then TrueStreak(pool, before, i) + 1
      else 0
  }

  /** A pool as strategies enter it: no failures stored for an active entry, some for a degraded one. */
  predicate WellStored(e: Entry) {
    Occupying(e.status) ==> (e.failures == 0 <==> e.status == PaperActive)
  }

  predicate WellStoredPool(pool: seq<Entry>) {
    forall i :: 0 <= i < |pool| ==> WellStored(pool[i])
  }

  lemma EvaluationKeepsWellStored(e: Entry, p: Performance)
    requires WellStored(e)
    ensures WellStored(Evaluated(e, p))
  {
  }

  lemma {:induction false} PoolStaysWellStored(pool: seq<Entry>, reports: seq<Report>)
    requires WellStoredPool(pool)
    ensures WellStoredPool(RunAll(pool, reports))
  {
    if reports != [] {
      var before, last := reports[..|reports| - 1], reports[|reports| - 1];
      PoolStaysWellStored(pool, before);
      var mid := RunAll(pool, before);
      forall i | 0 <= i < |pool| ensures WellStored(RunAll(pool, reports)[i]) {
        EvaluationKeepsWellStored(mid[i], last(i));
      }
    }
  }

  /** The driver saves the failure counter only when some status changes, so over any run the stored
      count may fall behind the true streak, but never runs ahead of it, and it is zero exactly for
      PAPER_ACTIVE entries. */
  lemma {:induction false} StoredNeverOverCounts(pool: seq<Entry>, reports: seq<Report>, i: nat)
    requires WellStoredPool(pool) && i < |pool|
    ensures var e := RunAll(pool, reports)[i];
            Occupying(e.status) ==>
              (e.failures <= TrueStreak(pool, reports, i) &&
               (e.failures == 0 <==> e.status == PaperActive) && (e.failures == 0 <==> TrueStreak(pool, reports, i) == 0))
  {
    PoolStaysWellStored(pool, reports);
    if reports != [] {
      var before, last := reports[..|reports| - 1], reports[|reports| - 1];
      StoredNeverOverCounts(pool, before, i);
      PoolStaysWellStored(pool, before);
      var e := RunAll(pool, before)[i];
      if !Saves(RunAll(pool, before), last) {
        assert Evaluated(e, last(i)).status == e.status;
      }
    }
  }

  /** Suspension takes at least two consecutive failing evaluations and archiving at least three. */
  lemma DegradationTakesAStreak(pool: seq<Entry>, reports: seq<Report>, i: nat)
    requires WellStoredPool(pool) && i < |pool| && reports != []
    requires Occupying(RunAll(pool, reports[..|reports| - 1])[i].status)
    ensures RunAll(pool, reports)[i].status == Suspended ==> TrueStreak(pool, reports, i) >= SUSPEND_CONSECUTIVE
    ensures RunAll(pool, reports)[i].status == Archived ==> TrueStreak(pool, reports, i) >= ARCHIVE_CONSECUTIVE
  {
    StoredNeverOverCounts(pool, reports[..|reports| - 1], i);
  }

  /** Suspended and archived entries stay as they are, whatever is reported. */
  lemma {:induction false} TerminalIsAbsorbing(pool: seq<Entry>, reports: seq<Report>, more: seq<Report>, i: nat)
    requires i < |pool| && Terminal(RunAll(pool, reports)[i].status)
    ensures RunAll(pool, reports + more)[i] == RunAll(pool, reports)[i]
  {
    if more == [] {
      assert reports + more == reports;
    } else {
      var all := reports + more;
      assert all[..|all| - 1] == reports + more[..|more| - 1];
      TerminalIsAbsorbing(pool, reports, more[..|more| - 1], i);
    }
  }

  /** Every failing evaluation of the entry's current streak came at a run that saved the pool. */
  predicate SavedThroughout(pool: seq<Entry>, reports: seq<Report>, i: nat)
    requires i < |pool|
  {
    reports == [] ||
    var before, last := reports[..|reports| - 1], reports[|reports| - 1];
    !Failing(last(i)) || (Saves(RunAll(pool, before), last) && SavedThroughout(pool, before, i))
  }

  /** When the stored count is right: exactly when no failing evaluation of the streak went unsaved. */
  lemma {:induction false} StoredIsExactIffSaved(pool: seq<Entry>, reports: seq<Report>, i: nat)
    requires WellStoredPool(pool) && i < |pool| && Occupying(RunAll(pool, reports)[i].status)
    ensures RunAll(pool, reports)[i].failures == TrueStreak(pool, reports, i) <==> SavedThroughout(pool, reports, i)
  {
    if reports != [] {
      var before, last := reports[..|reports| - 1], reports[|reports| - 1];
      var e := RunAll(pool, before)[i];
      assert Occupying(e.status);
      StoredIsExactIffSaved(pool, before, i);
      StoredNeverOverCounts(pool, before, i);
      StoredNeverOverCounts(pool, reports, i);
    }
  }

  // ---- what is decided, in the figures of the report ----

  /** A full warning window with a negative expectancy or a profit factor below 1. */
  predicate WarnedBy(p: Performance) {
    match p.warn
    case None => false
    case Some(w) =>
      w.full && ((w.expectancyR.Some? && w.expectancyR.value < 0.0) || (w.profitFactor.Some? && w.profitFactor.value < 1.0))
  }

  /** A full probation window with an expectancy of at most -0.05 or a profit factor below 0.9, or a win rate
      fallen by more than 0.15. */
  predicate ProbatedBy(p: Performance) {
    || (p.winRateDrop.Some? && p.winRateDrop.value > 0.15)
    || match p.probation
       case None => false
       case Some(w) =>
         w.full && ((w.expectancyR.Some? && w.expectancyR.value <= -0.05) || (w.profitFactor.Some? && w.profitFactor.value < 0.9))
  }

  /** A full suspension window with a negative expectancy and a profit factor below 0.9. */
  predicate SuspendedBy(p: Performance) {
    match p.suspend
    case None => false
    case Some(w) => w.full && w.expectancyR.Some? && w.expectancyR.value < 0.0 && w.profitFactor.Some? && w.profitFactor.value < 0.9
  }

  /** At least 100 trades with a negative lifetime expectancy. */
  predicate ArchivedBy(p: Performance) {
    p.lifetimeTrades >= 100 && p.lifetimeExpectancyR.Some? && p.lifetimeExpectancyR.value < 0.0
  }

  /** What one evaluation makes of an entry: archived at the third failure in a row, suspended at the second, when the
      figures call for it; else on probation, warned, or active. Entries not evaluated stay as they are. */
  predicate Decides(e: Entry, p: Performance, next: Entry) {
    if e.status == PaperActive || e.status == Warning || e.status == Probation then
      var failed := WarnedBy(p) || ProbatedBy(p);
      var archived := failed && e.failures + 1 >= 3 && ArchivedBy(p);
      var suspended := !archived && failed && e.failures + 1 >= 2 && SuspendedBy(p);
      && next.failures == (if failed then e.failures + 1 else 0)
      && (next.status == Archived <==> archived)
      && (next.status == Suspended <==> suspended)
      && (next.status == Probation <==> !archived && !suspended && ProbatedBy(p))
      && (next.status == Warning <==> !archived && !suspended && !ProbatedBy(p) && WarnedBy(p))
      && (next.status == PaperActive <==> !failed)
    else next == e
  }

  /** The agent itself leaves a suspended or archived status alone, whatever it is told. */
  lemma TerminalIsKept(status: Status, p: Performance, failures: nat)
    requires status == Suspended || status == Archived
    ensures Evaluate(status, p, failures).status == status
  {
  }

  lemma {:induction false} CountOccupyingIs(pool: seq<Entry>, n: nat)
    requires n <= |pool|
    ensures CountOccupying(pool, n) ==
            |set i | 0 <= i < n && (pool[i].status == PaperActive || pool[i].status == Warning || pool[i].status == Probation)|
  {
    if n > 0 {
      CountOccupyingIs(pool, n - 1);
      var before := set i | 0 <= i < n - 1 && (pool[i].status == PaperActive || pool[i].status == Warning || pool[i].status == Probation);
      var all := set i | 0 <= i < n && (pool[i].status == PaperActive || pool[i].status == Warning || pool[i].status == Probation);
      assert all == before + if Occupying(pool[n - 1].status) then {n - 1} else {};
    }
  }

  lemma EvaluationDecides(e: Entry, p: Performance)
    ensures Decides(e, p, Evaluated(e, p))
  {
  }

  lemma DecisionIsUnique(e: Entry, p: Performance, a: Entry, b: Entry)
    requires Decides(e, p, a) && Decides(e, p, b)
    ensures a == b
  {
  }

  /** A run of the driver leaves every entry as it is decided, unless no decision changes a status: then
      it leaves the file alone, and with it every failure counted. */
  lemma FeedbackDecides(pool: seq<Entry>, report: Report, decided: seq<Entry>)
    requires |decided| == |pool| && forall i :: 0 <= i < |pool| ==> Decides(pool[i], report(i), decided[i])
    ensures Feedback(pool, report) ==
            if exists i :: 0 <= i < |pool| && decided[i].status != pool[i].status then decided else pool
  {
    forall i | 0 <= i < |pool| ensures decided[i] == Evaluated(pool[i], report(i)) {
      EvaluationDecides(pool[i], report(i));
      DecisionIsUnique(pool[i], report(i), decided[i], Evaluated(pool[i], report(i)));
    }
    assert EvaluateAll(pool, report) == decided;
  }

  const FINE := Performance(None, None, None, None, 0, None)

  const SHAKY := Performance(Some(Window(true, Some(-0.1), None)), None, None, None, 0, None)

  const FADING := Performance(None, Some(Window(true, Some(-1.0), Some(0.5))), Some(Window(true, Some(-1.0), Some(0.5))), None, 30, Some(-1.0))

  lemma RunOneMore(pool: seq<Entry>, reports: seq<Report>, report: Report)
    ensures RunAll(pool, reports + [report]) == Feedback(RunAll(pool, reports), report)
  {
    assert (reports + [report])[..|reports|] == reports;
  }

  lemma TwoDecided(pool: seq<Entry>, report: Report, first: Entry, second: Entry)
    requires |pool| == 2 && Decides(pool[0], report(0), first) && Decides(pool[1], report(1), second)
    requires first.status != pool[0].status || second.status != pool[1].status
    ensures Feedback(pool, report) == [first, second]
  {
    var decided := [first, second];
    FeedbackDecides(pool, report, decided);
    assert decided[0].status != pool[0].status || decided[1].status != pool[1].status;
  }

  lemma ThreeRuns(pool: seq<Entry>, a: Report, b: Report, c: Report)
    ensures RunAll(pool, [a, b, c]) == Feedback(Feedback(Feedback(pool, a), b), c)
  {
    RunOneMore(pool, [], a);
    RunOneMore(pool, [a], b);
    RunOneMore(pool, [a, b], c);
    assert [] + [a] == [a] && [a] + [b] == [a, b] && [a, b] + [c] == [a, b, c];
  }

  lemma BothDecided(report: Report, a: Entry, b: Entry, first: Entry, second: Entry)
    requires Decides(a, report(0), first) && Decides(b, report(1), second)
    requires first.status != a.status || second.status != b.status
    ensures Feedback([a, b], report) == [first, second]
  {
    TwoDecided([a, b], report, first, second);
  }

  lemma HopelessDecides(failures: nat, from: Status, to: Status)
    requires from == PaperActive || from == Probation
    requires to == if failures < 2 then Probation else Archived
    ensures Decides(Entry(from, failures), HOPELESS, Entry(to, failures + 1))
  {
  }

  lemma ShakyDecides(failures: nat, from: Status)
    requires from == PaperActive || from == Warning
    ensures Decides(Entry(from, failures), SHAKY, Entry(Warning, failures + 1))
  {
  }

  /** A run that archives: the neighbour's change of status in the second run saves the count. */
  lemma CompanyGetsItArchived(quiet: Report, shaky: Report)
    requires quiet(0) == shaky(0) == HOPELESS && quiet(1) == FINE && shaky(1) == SHAKY
    ensures RunAll([Entry(PaperActive, 0), Entry(PaperActive, 0)], [quiet, shaky, shaky]) == [Entry(Archived, 3), Entry(Warning, 2)]
  {
    ThreeRuns([Entry(PaperActive, 0), Entry(PaperActive, 0)], quiet, shaky, shaky);
    HopelessDecides(0, PaperActive, Probation);
    HopelessDecides(1, Probation, Probation);
    HopelessDecides(2, Probation, Archived);
    ShakyDecides(0, PaperActive);
    ShakyDecides(1, Warning);
    BothDecided(quiet, Entry(PaperActive, 0), Entry(PaperActive, 0), Entry(Probation, 1), Entry(PaperActive, 0));
    BothDecided(shaky, Entry(Probation, 1), Entry(PaperActive, 0), Entry(Probation, 2), Entry(Warning, 1));
    BothDecided(shaky, Entry(Probation, 2), Entry(Warning, 1), Entry(Archived, 3), Entry(Warning, 2));
  }

  lemma OneDecided(pool: seq<Entry>, report: Report, next: Entry)
    requires |pool| == 1 && Decides(pool[0], report(0), next) && next.status != pool[0].status
    ensures Feedback(pool, report) == [next]
  {
    FeedbackDecides(pool, report, [next]);
    assert [next][0].status != pool[0].status;
  }

  /** A run that suspends, alone in the pool. */
  lemma TwoFailuresSuspend(fading: Report)
    requires fading(0) == FADING
    ensures RunAll([Entry(PaperActive, 0)], [fading, fading]) == [Entry(Suspended, 2)]
  {
    RunOneMore([Entry(PaperActive, 0)], [], fading);
    RunOneMore([Entry(PaperActive, 0)], [fading], fading);
    assert [] + [fading] == [fading] && [fading] + [fading] == [fading, fading];
    OneDecided([Entry(PaperActive, 0)], fading, Entry(Probation, 1));
    OneDecided([Entry(Probation, 1)], fading, Entry(Suspended, 2));
  }

  /** A strategy failing its probation window for good, with lifetime figures that call for archiving. */
  const HOPELESS := Performance(None, Some(Window(true, Some(-1.0), Some(0.5))), None, None, 1000, Some(-1.0))

  function Always(p: Performance, n: nat): seq<Report> {
    if n == 0 then [] else Always(p, n - 1) + [(_: nat) => p]
  }

  /** The first failure changes the status and is saved. */
  lemma FirstFailureIsSaved(report: Report)
    requires report(0) == HOPELESS
    ensures Feedback([Entry(PaperActive, 0)], report) == [Entry(Probation, 1)]
  {
    var pool := [Entry(PaperActive, 0)];
    assert Evaluated(pool[0], report(0)) == Entry(Probation, 1);
    assert Evaluated(pool[0], report(0)).status != pool[0].status;
  }

  /** The next one changes no status, and the count it would get is not saved. */
  lemma NextFailureIsNotSaved(report: Report)
    requires report(0) == HOPELESS
    ensures Feedback([Entry(Probation, 1)], report) == [Entry(Probation, 1)]
  {
    var pool := [Entry(Probation, 1)];
    assert Evaluated(pool[0], report(0)) == Entry(Probation, 2);
    assert !Saves(pool, report);
  }

  lemma AlwaysLast(p: Performance, n: nat)
    requires n > 0
    ensures |Always(p, n)| == n && Always(p, n)[..n - 1] == Always(p, n - 1) && Always(p, n)[n - 1](0) == p
    decreases n
  {
    if n > 1 { AlwaysLast(p, n - 1); }
  }

  /** Where the count does fall behind: alone in the pool, such a strategy is never archived. Its status
      changes once, so it is stored with one failure and re-evaluated from one, however long it fails. */
  lemma {:induction false} LoneFailureNeverArchived(n: nat)
    requires n > 0
    ensures RunAll([Entry(PaperActive, 0)], Always(HOPELESS, n)) == [Entry(Probation, 1)]
    ensures TrueStreak([Entry(PaperActive, 0)], Always(HOPELESS, n), 0) == n
  {
    AlwaysLast(HOPELESS, n);
    if n == 1 {
      FirstFailureIsSaved(Always(HOPELESS, n)[0]);
    } else {
      LoneFailureNeverArchived(n - 1);
      NextFailureIsNotSaved(Always(HOPELESS, n)[n - 1]);
    }
  }
}
