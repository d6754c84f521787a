/** No look-ahead: what the simulator did before bar k does not depend on bar k or later. */
module SimulatorCausality {
  import opened Simulator

  predicate SameUpTo(a: seq<Bar>, b: seq<Bar>, k: nat) {
    k <= |a| && k <= |b| && forall i :: 0 <= i < k ==> a[i] == b[i]
  }

  /** The trades that left before bar k for a reason of their own. */
  function Early(trades: seq<Trade>, k: nat): seq<Trade> {
    if trades == [] then []
    else (if trades[0].exitBar < k && trades[0].reason != FORCE_CLOSE then [trades[0]] else []) + Early(trades[1..], k)
  }

  /** The positions entered before bar k. */
  function EarlyEntries(entries: seq<Position>, k: nat): seq<Position> {
    if entries == [] then []
    else (if entries[0].entryBar < k then [entries[0]] else []) + EarlyEntries(entries[1..], k)
  }

  /** Nothing that happens from bar i on can be early for k <= i. */
  lemma {:induction false} NothingEarly(m: Setup, bars: seq<Bar>, i: nat, k: nat)
    requires k <= i
    ensures Early(Trades(m, bars, i), k) == [] && EarlyEntries(Entries(m, bars, i), k) == []
    decreases if i < |bars| then |bars| - i else 0, 1
  {
    if i + 1 < |bars| {
      match Signal(m, bars, i)
      case None => NothingEarly(m, bars, i + 1, k);
      case Some(p) =>
        NothingEarlyHeld(m, bars, p, i + 1, k);
        assert ([p] + EntriesAfter(m, bars, p, i + 1))[1..] == EntriesAfter(m, bars, p, i + 1);
    }
  }

  lemma {:induction false} NothingEarlyHeld(m: Setup, bars: seq<Bar>, p: Position, j: nat, k: nat)
    requires k <= j
    ensures Early(Hold(m, bars, p, j), k) == [] && EarlyEntries(EntriesAfter(m, bars, p, j), k) == []
    decreases if j < |bars| then |bars| - j else 0, 0
  {
    if j < |bars| {
      match ExitAt(m, bars, p, j)
      case None => NothingEarlyHeld(m, bars, p, j + 1, k);
      case Some((reason, exit)) =>
        NothingEarly(m, bars, j + 1, k);
        assert ([Close(m, p, j, reason, exit)] + Trades(m, bars, j + 1))[1..] == Trades(m, bars, j + 1);
    }
  }

  lemma {:induction false} SameTrades(m: Setup, a: seq<Bar>, b: seq<Bar>, i: nat, k: nat)
    requires SameUpTo(a, b, k) && i <= k
    ensures Early(Trades(m, a, i), k) == Early(Trades(m, b, i), k)
    ensures EarlyEntries(Entries(m, a, i), k) == EarlyEntries(Entries(m, b, i), k)
    decreases k - i, 1
  {
    if i + 1 < k {
      match Signal(m, a, i)
      case None => SameTrades(m, a, b, i + 1, k);
      case Some(p) =>
        SameHeld(m, a, b, p, i + 1, k);
        assert ([p] + EntriesAfter(m, a, p, i + 1))[1..] == EntriesAfter(m, a, p, i + 1);
        assert ([p] + EntriesAfter(m, b, p, i + 1))[1..] == EntriesAfter(m, b, p, i + 1);
    } else {
      NothingEarlyYet(m, a, i, k);
      NothingEarlyYet(m, b, i, k);
    }
  }

  /** A signal on the last agreed bar can only enter, and leave, at bar k or later. */
  lemma NothingEarlyYet(m: Setup, bars: seq<Bar>, i: nat, k: nat)
    requires k <= i + 1
    ensures Early(Trades(m, bars, i), k) == [] && EarlyEntries(Entries(m, bars, i), k) == []
  {
    if i + 1 < |bars| {
      NothingEarly(m, bars, i + 1, k);
      if Signal(m, bars, i).Some? {
        var p := Signal(m, bars, i).value;
        NothingEarlyHeld(m, bars, p, i + 1, k);
        assert ([p] + EntriesAfter(m, bars, p, i + 1))[1..] == EntriesAfter(m, bars, p, i + 1);
      }
    }
  }

  lemma {:induction false} SameHeld(m: Setup, a: seq<Bar>, b: seq<Bar>, p: Position, j: nat, k: nat)
    requires SameUpTo(a, b, k) && j <= k
    ensures Early(Hold(m, a, p, j), k) == Early(Hold(m, b, p, j), k)
    ensures EarlyEntries(EntriesAfter(m, a, p, j), k) == EarlyEntries(EntriesAfter(m, b, p, j), k)
    decreases k - j, 0
  {
    if j < k {
      match ExitAt(m, a, p, j)
      case None => SameHeld(m, a, b, p, j + 1, k);
      case Some((reason, exit)) =>
        SameTrades(m, a, b, j + 1, k);
        var t := Close(m, p, j, reason, exit);
        assert ([t] + Trades(m, a, j + 1))[1..] == Trades(m, a, j + 1);
        assert ([t] + Trades(m, b, j + 1))[1..] == Trades(m, b, j + 1);
    } else {
      NothingEarlyHeld(m, a, p, j, k);
      NothingEarlyHeld(m, b, p, j, k);
    }
  }

  /** Causality: frames that agree on their first k bars give the same entries before bar k,
      sizes and levels included, and the same non-forced exits before bar k. */
  lemma NoLookAhead(m: Setup, a: seq<Bar>, b: seq<Bar>, k: nat)
    requires SameUpTo(a, b, k)
    ensures Early(Trades(m, a, 0), k) == Early(Trades(m, b, 0), k)
    ensures EarlyEntries(Entries(m, a, 0), k) == EarlyEntries(Entries(m, b, 0), k)
  {
    SameTrades(m, a, b, 0, k);
  }
}
