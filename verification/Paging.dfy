/** Backward paging against the venue's per-call cap (data/binance_futures_collector.py)
    and the on-disk cache in front of it (data/candle_history.py). */
module Paging {
  import opened Common
  import opened TimeSeries

  /** A kline or funding event, stamped with its millisecond time. */
  type Row = Timed<string>

  predicate Increasing(rows: seq<Row>) {
    forall i, j :: 0 <= i < j < |rows| ==> rows[i].ts < rows[j].ts
  }

  predicate DistinctTimes(rows: seq<Row>) {
    forall i, j :: 0 <= i < j < |rows| ==> rows[i].ts != rows[j].ts
  }

  predicate HasTime(rows: seq<Row>, time: int) {
    exists i :: 0 <= i < |rows| && rows[i].ts == time
  }

  ghost predicate SameRows(a: seq<Row>, b: seq<Row>) {
    forall r :: r in a <==> r in b
  }

  /** The newest n rows of an oldest-first series. */
  function Newest(rows: seq<Row>, n: int): seq<Row> {
    if n <= 0 then [] else if n >= |rows| then rows else rows[|rows| - n..]
  }

  // ---- the frame built from the collected rows ----

  /** drop_duplicates: the first row of every time stays. */
  function DropDuplicates(rows: seq<Row>): seq<Row> {
    if rows == [] then []
    else
      var kept, last := DropDuplicates(rows[..|rows| - 1]), rows[|rows| - 1];
      if HasTime(kept, last.ts) then kept else kept + [last]
  }

  function Frame(collected: seq<Row>): seq<Row> {
    SortByTime(DropDuplicates(collected))
  }

  lemma {:induction false} InsertIncreases(rows: seq<Row>, r: Row)
    requires Increasing(rows) && !HasTime(rows, r.ts)
    ensures Increasing(Insert(rows, r))
  {
    if rows != [] && rows[|rows| - 1].ts > r.ts {
      var last, rest := rows[|rows| - 1], rows[..|rows| - 1];
      forall i | 0 <= i < |rest| ensures rest[i].ts != r.ts {
        assert rows[i].ts != r.ts;
      }
      InsertIncreases(rest, r);
      forall i | 0 <= i < |Insert(rest, r)| ensures Insert(rest, r)[i].ts < last.ts {
        InsertHolds(rest, r, Insert(rest, r)[i]);
      }
    } else if rows != [] {
      assert rows[|rows| - 1].ts != r.ts;
    }
  }

  lemma {:induction false} SortIncreases(rows: seq<Row>)
    requires DistinctTimes(rows)
    ensures Increasing(SortByTime(rows))
  {
    if rows != [] {
      var last, rest := rows[|rows| - 1], rows[..|rows| - 1];
      SortIncreases(rest);
      forall i | 0 <= i < |SortByTime(rest)| ensures SortByTime(rest)[i].ts != last.ts {
        SortHolds(rest, SortByTime(rest)[i]);
        var k :| 0 <= k < |rest| && rest[k] == SortByTime(rest)[i];
        assert rows[k].ts != last.ts;
      }
      InsertIncreases(SortByTime(rest), last);
    }
  }

  /** Rows without duplicates, sorted: increasing, and the same rows. */
  lemma SortSorts(rows: seq<Row>)
    requires DistinctTimes(rows)
    ensures Increasing(SortByTime(rows)) && SameRows(SortByTime(rows), rows)
  {
    SortIncreases(rows);
    forall r ensures r in SortByTime(rows) <==> r in rows {
      SortHolds(rows, r);
    }
  }

  lemma {:induction false} DropKeepsOneEach(rows: seq<Row>)
    ensures DistinctTimes(DropDuplicates(rows))
    ensures forall r :: r in DropDuplicates(rows) ==> r in rows
    ensures forall r :: r in rows ==> HasTime(DropDuplicates(rows), r.ts)
  {
    if rows != [] {
      var last, rest := rows[|rows| - 1], rows[..|rows| - 1];
      DropKeepsOneEach(rest);
      assert rows == rest + [last];
      var kept := DropDuplicates(rest);
      forall r | r in rows ensures HasTime(DropDuplicates(rows), r.ts) {
        if r in rest {
          var i :| 0 <= i < |kept| && kept[i].ts == r.ts;
          assert DropDuplicates(rows)[i].ts == r.ts;
        } else if !HasTime(kept, last.ts) {
          assert DropDuplicates(rows)[|kept|].ts == last.ts;
        }
      }
    }
  }

  /** Whatever was collected, the frame is oldest-first with exactly one row per collected time. */
  lemma FrameIsOrdered(collected: seq<Row>)
    ensures Increasing(Frame(collected))
    ensures forall r :: r in Frame(collected) ==> r in collected
    ensures forall r :: r in collected ==> HasTime(Frame(collected), r.ts)
  {
    var kept := DropDuplicates(collected);
    DropKeepsOneEach(collected);
    SortSorts(kept);
    forall r | r in Frame(collected) ensures r in collected {
      assert r in kept;
    }
    forall r | r in collected ensures HasTime(Frame(collected), r.ts) {
      var i :| 0 <= i < |kept| && kept[i].ts == r.ts;
      assert kept[i] in Frame(collected);
      var j :| 0 <= j < |Frame(collected)| && Frame(collected)[j] == kept[i];
    }
  }

  lemma FrameIncreases(collected: seq<Row>)
    ensures Increasing(Frame(collected))
  {
    FrameIsOrdered(collected);
  }

  predicate AllBefore(a: seq<Row>, b: seq<Row>) {
    forall i, j :: 0 <= i < |a| && 0 <= j < |b| ==> a[i].ts < b[j].ts
  }

  lemma {:induction false} DropIsNoOp(rows: seq<Row>)
    requires DistinctTimes(rows)
    ensures DropDuplicates(rows) == rows
  {
    if rows != [] {
      DropIsNoOp(rows[..|rows| - 1]);
      assert rows == rows[..|rows| - 1] + [rows[|rows| - 1]];
    }
  }

  lemma LastIsLast(a: seq<Row>, b: seq<Row>)
    requires a != [] && b != [] && Increasing(a) && Increasing(b) && SameRows(a, b)
    ensures a[|a| - 1] == b[|b| - 1]
  {
    var x, y := a[|a| - 1], b[|b| - 1];
    assert x in b && y in a;
  }

  lemma SameWithoutLast(a: seq<Row>, b: seq<Row>)
    requires a != [] && b != [] && Increasing(a) && Increasing(b) && SameRows(a, b) && a[|a| - 1] == b[|b| - 1]
    ensures SameRows(a[..|a| - 1], b[..|b| - 1])
  {
    var a', b' := a[..|a| - 1], b[..|b| - 1];
    forall i | 0 <= i < |a'| ensures a'[i] in b' {
      assert a[i] in b && a[i] != a[|a| - 1];
    }
    forall i | 0 <= i < |b'| ensures b'[i] in a' {
      assert b[i] in a && b[i] != b[|b| - 1];
    }
  }

  /** There is one increasing sequence of given rows. */
  lemma {:induction false} IncreasingIsUnique(a: seq<Row>, b: seq<Row>)
    requires Increasing(a) && Increasing(b) && SameRows(a, b)
    ensures a == b
  {
    if a != [] { assert a[0] in b; }
    if b != [] { assert b[0] in a; }
    if a != [] {
      LastIsLast(a, b);
      SameWithoutLast(a, b);
      IncreasingIsUnique(a[..|a| - 1], b[..|b| - 1]);
      assert a == a[..|a| - 1] + [a[|a| - 1]] && b == b[..|b| - 1] + [b[|b| - 1]];
    }
  }

  /** Rows without duplicates make the frame that lists them in order. */
  lemma FrameOf(collected: seq<Row>, tail: seq<Row>)
    requires DistinctTimes(collected) && SameRows(collected, tail) && Increasing(tail)
    ensures DropDuplicates(collected) == collected && Frame(collected) == tail
  {
    DropIsNoOp(collected);
    SortSorts(collected);
    IncreasingIsUnique(SortByTime(collected), tail);
  }

  // ---- the venue ----

  /** The rows at or before endTime; everything when none is given. */
  function UpTo(history: seq<Row>, endTime: Option<int>): seq<Row> {
    if endTime.None? || history == [] || history[|history| - 1].ts <= endTime.value then history
    else UpTo(history[..|history| - 1], endTime)
  }

  /** A venue's replies, by call number: rows for an end time and a limit. */
  type Replies = (nat, Option<int>, int) -> seq<Row>

  /** klines, asked for at most `most` rows: the newest `limit` rows at or before the end time, every time. */
  ghost predicate ServesKlines(reply: Replies, history: seq<Row>, most: int) {
    forall n, e, limit :: 0 < limit <= most ==> reply(n, e, limit) == Newest(UpTo(history, e), limit)
  }

  /** fundingRate: as klines, but a page may come back shorter than asked, even mid-history. */
  ghost predicate ServesFunding(reply: Replies, history: seq<Row>) {
    forall n, e, limit :: limit > 0 ==> ShortPage(reply(n, e, limit), UpTo(history, e), limit)
  }

  predicate ShortPage(page: seq<Row>, rows: seq<Row>, limit: int) {
    |page| <= limit && page == Newest(rows, |page|) && (rows != [] ==> page != [])
  }

  lemma {:induction false} UpToBefore(history: seq<Row>, start: nat)
    requires Increasing(history) && start < |history|
    ensures UpTo(history, Some(history[start].ts - 1)) == history[..start]
  {
    var last := |history| - 1;
    if start == last {
      assert history[..last] == [] || history[last - 1].ts <= history[start].ts - 1;
    } else {
      assert history[..last][..start] == history[..start];
      UpToBefore(history[..last], start);
    }
  }

  function OldestTime(rows: seq<Row>): int
    requires rows != []
  {
    if |rows| == 1 then rows[0].ts
    else
      var m := OldestTime(rows[..|rows| - 1]);
      if rows[|rows| - 1].ts < m then rows[|rows| - 1].ts else m
  }

  lemma {:induction false} OldestIsFirst(rows: seq<Row>)
    requires rows != [] && Increasing(rows)
    ensures OldestTime(rows) == rows[0].ts
  {
    if |rows| > 1 { OldestIsFirst(rows[..|rows| - 1]); }
  }

  // ---- the paging loops ----

  /** The end time asked with. */
  function EndBefore(oldestSeen: Option<int>): Option<int> {
    if oldestSeen.Some? then Some(oldestSeen.value - 1) else None
  }

  function MinInt(a: int, b: int): int { if a < b then a else b }

  /** What the loops need of the venue: full pages if they stop on short ones, short ones otherwise. */
  ghost predicate Serves(reply: Replies, history: seq<Row>, most: int, stopOnShort: bool) {
    if stopOnShort then ServesKlines(reply, history, most) else ServesFunding(reply, history)
  }

  /** The end time asked with once everything from index `start` on has been seen. */
  function EndAt(history: seq<Row>, start: nat): Option<int>
    requires start <= |history|
  {
    if start == |history| then None else Some(history[start].ts - 1)
  }

  /** A page is the slice just below `start`, empty only when nothing is left, and short only if allowed to be. */
  predicate SliceAt(history: seq<Row>, page: seq<Row>, start: nat, limit: int, stopOnShort: bool)
    requires start <= |history|
  {
    && |page| <= start && |page| <= limit && page == history[start - |page|..start]
    && (page == [] ==> start == 0) && (stopOnShort && |page| < limit ==> |page| == start)
  }

  lemma LeftToServe(history: seq<Row>, start: nat)
    requires Increasing(history) && start <= |history|
    ensures UpTo(history, EndAt(history, start)) == history[..start]
  {
    if start < |history| { UpToBefore(history, start); }
  }

  lemma ServedSlice(reply: Replies, history: seq<Row>, most: int, stopOnShort: bool, call: nat, start: nat, limit: int)
    requires Serves(reply, history, most, stopOnShort) && Increasing(history) && start <= |history| && 0 < limit <= most
    ensures SliceAt(history, reply(call, EndAt(history, start), limit), start, limit, stopOnShort)
  {
    LeftToServe(history, start);
    var page := reply(call, EndAt(history, start), limit);
    assert if stopOnShort then page == Newest(history[..start], limit) else ShortPage(page, history[..start], limit);
  }

  lemma SliceTimes(history: seq<Row>, lo: nat, hi: nat)
    requires Increasing(history) && lo <= hi <= |history|
    ensures Increasing(history[lo..hi]) && AllBefore(history[lo..hi], history[hi..])
    ensures lo < hi ==> OldestTime(history[lo..hi]) == history[lo].ts
  {
    if lo < hi { OldestIsFirst(history[lo..hi]); }
  }

  /** Exactly the rows from index `start` on have been collected, each once. */
  ghost predicate Reached(collected: seq<Row>, history: seq<Row>, start: nat) {
    && start <= |history| && |collected| == |history| - start
    && DistinctTimes(collected) && SameRows(collected, history[start..])
  }

  lemma ReachedFurther(collected: seq<Row>, history: seq<Row>, page: seq<Row>, start: nat)
    requires Reached(collected, history, start) && Increasing(history)
    requires |page| <= start && page == history[start - |page|..start]
    ensures Reached(collected + page, history, start - |page|)
  {
    var tail, lo := history[start..], start - |page|;
    SliceTimes(history, lo, start);
    assert history[lo..] == page + tail;
    forall i, j | 0 <= i < |collected| && 0 <= j < |page| ensures page[j].ts < collected[i].ts {
      assert collected[i] in tail;
    }
  }

  /** The rows of the pages collected so far. */
  function Flatten(pages: seq<seq<Row>>): seq<Row> {
    if pages == [] then [] else Flatten(pages[..|pages| - 1]) + pages[|pages| - 1]
  }

  /** Each page is the slice of the history just below the one before; the last starts at `start`. */
  predicate Chain(history: seq<Row>, pages: seq<seq<Row>>, start: nat) {
    if pages == [] then start == |history|
    else
      var last := pages[|pages| - 1];
      && start + |last| <= |history| && last == history[start..start + |last|]
      && Chain(history, pages[..|pages| - 1], start + |last|)
  }

  lemma OnePageFurther(history: seq<Row>, pages: seq<seq<Row>>, page: seq<Row>, start: nat)
    requires Chain(history, pages, start) && |page| <= start <= |history| && page == history[start - |page|..start]
    ensures Chain(history, pages + [page], start - |page|)
  {
    assert (pages + [page])[..|pages|] == pages;
  }

  lemma FlattenSnoc(pages: seq<seq<Row>>, page: seq<Row>)
    ensures Flatten(pages + [page]) == Flatten(pages) + page
  {
    assert (pages + [page])[..|pages|] == pages;
  }

  lemma {:induction false} ChainReaches(history: seq<Row>, pages: seq<seq<Row>>, start: nat)
    requires Increasing(history) && Chain(history, pages, start)
    ensures Reached(Flatten(pages), history, start)
  {
    if pages != [] {
      var init, last := pages[..|pages| - 1], pages[|pages| - 1];
      ChainReaches(history, init, start + |last|);
      ReachedFurther(Flatten(init), history, last, start + |last|);
    }
  }

  /** A venue with this history that answers as documented, up to the page limit asked with. */
  ghost predicate Honest(reply: Replies, history: seq<Row>, pageLimit: int, stopOnShort: bool) {
    Increasing(history) && Serves(reply, history, pageLimit, stopOnShort) && pageLimit > 0
  }

  /** Where a paging loop stands that has met an honest venue so far: everything from `start` on collected, page by page. */
  predicate Going(history: seq<Row>, pages: seq<seq<Row>>, start: nat, wanted: int,
                  collected: seq<Row>, oldestSeen: Option<int>)
  {
    && collected == Flatten(pages)
    && Chain(history, pages, start) && start <= |history| && |collected| == |history| - start
    && (|history| - start <= wanted || start == |history|)
    && oldestSeen == if start == |history| then None else Some(history[start].ts)
  }

  /** A page that is the slice just below `start` takes the loop that much further back. */
  lemma SliceGoes(history: seq<Row>, pages: seq<seq<Row>>, start: nat, wanted: int, collected: seq<Row>,
                  oldestSeen: Option<int>, page: seq<Row>, limit: int, stopOnShort: bool)
    requires Increasing(history) && Going(history, pages, start, wanted, collected, oldestSeen)
    requires limit <= wanted - |collected| && SliceAt(history, page, start, limit, stopOnShort) && page != []
    ensures Going(history, pages + [page], start - |page|, wanted, collected + page, Some(OldestTime(page)))
    ensures oldestSeen.Some? ==> OldestTime(page) < oldestSeen.value
  {
    FlattenSnoc(pages, page);
    OnePageFurther(history, pages, page, start);
    SliceTimes(history, start - |page|, start);
  }

  /** One turn against an honest venue: it goes one page further back, ends when it should, and never stalls. */
  lemma HonestTurn(reply: Replies, history: seq<Row>, wanted: int, pageLimit: int, stopOnShort: bool,
                   pages: seq<seq<Row>>, start: nat, collected: seq<Row>, oldestSeen: Option<int>, call: nat)
    returns (page: seq<Row>, start': nat)
    requires Honest(reply, history, pageLimit, stopOnShort)
    requires Going(history, pages, start, wanted, collected, oldestSeen) && |collected| < wanted
    ensures page == reply(call, EndBefore(oldestSeen), MinInt(pageLimit, wanted - |collected|))
    ensures page != [] ==> Going(history, pages + [page], start', wanted, collected + page, Some(OldestTime(page)))
    ensures page != [] && oldestSeen.Some? ==> OldestTime(page) < oldestSeen.value
    ensures page == [] ==> start == 0
    ensures page != [] && stopOnShort && |page| < MinInt(pageLimit, wanted - |collected|) ==> start' == 0
  {
    var limit := MinInt(pageLimit, wanted - |collected|);
    page := reply(call, EndBefore(oldestSeen), limit);
    assert EndBefore(oldestSeen) == EndAt(history, start);
    ServedSlice(reply, history, pageLimit, stopOnShort, call, start, limit);
    start' := start - |page|;
    if page != [] {
      SliceGoes(history, pages, start, wanted, collected, oldestSeen, page, limit, stopOnShort);
    }
  }

  lemma NewestFrom(history: seq<Row>, start: nat, wanted: int)
    requires start <= |history|
    requires |history| - start <= wanted || start == |history|
    requires |history| - start >= wanted || start == 0
    ensures Newest(history, wanted) == history[start..]
  {
  }

  lemma SuffixIncreases(history: seq<Row>, start: nat)
    requires Increasing(history) && start <= |history|
    ensures Increasing(history[start..])
  {
  }

  /** The frame is the newest rows, and there was nothing to de-duplicate. */
  predicate IsNewestFrame(collected: seq<Row>, history: seq<Row>, wanted: int) {
    DropDuplicates(collected) == collected && Frame(collected) == Newest(history, wanted)
  }

  /** Everything wanted has been collected, or there is nothing more: what was collected is the newest rows. */
  lemma GoneFarEnough(history: seq<Row>, pages: seq<seq<Row>>, start: nat, wanted: int,
                      collected: seq<Row>, oldestSeen: Option<int>)
    requires Going(history, pages, start, wanted, collected, oldestSeen)
    requires Increasing(history) && (|collected| >= wanted || start == 0)
    ensures IsNewestFrame(collected, history, wanted)
  {
    ChainReaches(history, pages, start);
    SuffixIncreases(history, start);
    NewestFrom(history, start, wanted);
    FrameOf(collected, history[start..]);
  }

  /** The rows both loops collect from where they stand; only klines_history stops on a short page. */
  function Collect(reply: Replies, wanted: int, pageLimit: int, stopOnShort: bool,
                   collected: seq<Row>, oldestSeen: Option<int>, call: nat): seq<Row>
    decreases wanted - |collected|
  {
    if |collected| >= wanted then collected
    else
      var limit := MinInt(pageLimit, wanted - |collected|);
      var page := reply(call, EndBefore(oldestSeen), limit);
      if page == [] then collected
      else if oldestSeen.Some? && OldestTime(page) >= oldestSeen.value then collected + page
      else if stopOnShort && |page| < limit then collected + page
      else Collect(reply, wanted, pageLimit, stopOnShort, collected + page, Some(OldestTime(page)), call + 1)
  }

  /** One turn of the loops, with the page that came back. */
  lemma CollectTurn(reply: Replies, wanted: int, pageLimit: int, stopOnShort: bool,
                    collected: seq<Row>, oldestSeen: Option<int>, call: nat, page: seq<Row>, limit: int)
    requires |collected| < wanted && limit == MinInt(pageLimit, wanted - |collected|)
    requires page == reply(call, EndBefore(oldestSeen), limit)
    requires page != [] && oldestSeen.Some? ==> OldestTime(page) < oldestSeen.value
    ensures Collect(reply, wanted, pageLimit, stopOnShort, collected, oldestSeen, call) ==
            if page == [] then collected
            else if stopOnShort && |page| < limit then collected + page
            else Collect(reply, wanted, pageLimit, stopOnShort, collected + page, Some(OldestTime(page)), call + 1)
  {
  }

  /** From wherever an honest venue has led them, the loops end with exactly the newest rows. */
  lemma {:induction false} CollectsNewest(reply: Replies, history: seq<Row>, wanted: int, pageLimit: int, stopOnShort: bool,
                                          pages: seq<seq<Row>>, start: nat, collected: seq<Row>, oldestSeen: Option<int>, call: nat)
    returns (all: seq<Row>)
    requires Honest(reply, history, pageLimit, stopOnShort)
    requires Going(history, pages, start, wanted, collected, oldestSeen)
    ensures all == Collect(reply, wanted, pageLimit, stopOnShort, collected, oldestSeen, call)
    ensures IsNewestFrame(all, history, wanted)
    decreases wanted - |collected|
  {
    all := collected;
    if |collected| >= wanted {
      GoneFarEnough(history, pages, start, wanted, collected, oldestSeen);
    } else {
      var limit := MinInt(pageLimit, wanted - |collected|);
      var page, start' := HonestTurn(reply, history, wanted, pageLimit, stopOnShort, pages, start, collected, oldestSeen, call);
      CollectTurn(reply, wanted, pageLimit, stopOnShort, collected, oldestSeen, call, page, limit);
      if page == [] {
        GoneFarEnough(history, pages, start, wanted, collected, oldestSeen);
      } else {
        all := collected + page;
        if stopOnShort && |page| < limit {
          GoneFarEnough(history, pages + [page], start', wanted, all, Some(OldestTime(page)));
        } else {
          all := CollectsNewest(reply, history, wanted, pageLimit, stopOnShort, pages + [page], start', all,
                                Some(OldestTime(page)), call + 1);
        }
      }
    }
  }

  lemma CollectsNewestFromStart(reply: Replies, history: seq<Row>, wanted: int, pageLimit: int, stopOnShort: bool)
    requires Honest(reply, history, pageLimit, stopOnShort)
    ensures IsNewestFrame(Collect(reply, wanted, pageLimit, stopOnShort, [], None, 0), history, wanted)
  {
    var all := CollectsNewest(reply, history, wanted, pageLimit, stopOnShort, [], |history|, [], None, 0);
  }

  /** klines_history, and the rows it collected as they came in. Against any replies it ends, with the ordered
      frame of those rows; against full pages of a fixed history the frame is exactly its newest `bars` rows,
      and there was nothing to de-duplicate. */
  method KlinesHistory(reply: Replies, ghost history: seq<Row>, bars: int, pageLimit: int)
    returns (frame: seq<Row>, collected: seq<Row>)
    ensures collected == Collect(reply, bars, pageLimit, true, [], None, 0)
    ensures Increasing(frame) && frame == Frame(collected)
    ensures Honest(reply, history, pageLimit, true) ==>
              frame == Newest(history, bars) && DropDuplicates(collected) == collected
  {
    collected := [];
    var endTime, oldestSeen: Option<int> := None, None;
    var calls := 0;
    ghost var all := Collect(reply, bars, pageLimit, true, [], None, 0);
    while |collected| < bars
      invariant endTime == EndBefore(oldestSeen)
      invariant Collect(reply, bars, pageLimit, true, collected, oldestSeen, calls) == all
      decreases bars - |collected|
    {
      var limit := MinInt(pageLimit, bars - |collected|);
      var rows := reply(calls, endTime, limit);
      if rows == [] {
        break;
      }
      collected := collected + rows;
      var pageOldest := OldestTime(rows);
      if oldestSeen.Some? && pageOldest >= oldestSeen.value {
        break;
      }
      oldestSeen, endTime, calls := Some(pageOldest), Some(pageOldest - 1), calls + 1;
      if |rows| < limit {
        break;
      }
    }
    assert collected == all;
    if Honest(reply, history, pageLimit, true) {
      CollectsNewestFromStart(reply, history, bars, pageLimit, true);
    }
    frame := Frame(collected);
    FrameIncreases(collected);
  }

  /** funding_rate_history: the same loop without the short-page exit, so the same holds of a venue
      whose pages come back short mid-history. */
  method FundingRateHistory(reply: Replies, ghost history: seq<Row>, records: int, pageLimit: int)
    returns (frame: seq<Row>, collected: seq<Row>)
    ensures collected == Collect(reply, records, pageLimit, false, [], None, 0)
    ensures Increasing(frame) && frame == Frame(collected)
    ensures Honest(reply, history, pageLimit, false) ==>
              frame == Newest(history, records) && DropDuplicates(collected) == collected
  {
    collected := [];
    var endTime, oldestSeen: Option<int> := None, None;
    var calls := 0;
    ghost var all := Collect(reply, records, pageLimit, false, [], None, 0);
    while |collected| < records
      invariant endTime == EndBefore(oldestSeen)
      invariant Collect(reply, records, pageLimit, false, collected, oldestSeen, calls) == all
      decreases records - |collected|
    {
      var limit := MinInt(pageLimit, records - |collected|);
      var rows := reply(calls, endTime, limit);
      if rows == [] {
        break;
      }
      collected := collected + rows;
      var pageOldest := OldestTime(rows);
      if oldestSeen.Some? && pageOldest >= oldestSeen.value {
        break;
      }
      oldestSeen, endTime, calls := Some(pageOldest), Some(pageOldest - 1), calls + 1;
    }
    assert collected == all;
    if Honest(reply, history, pageLimit, false) {
      CollectsNewestFromStart(reply, history, records, pageLimit, false);
    }
    frame := Frame(collected);
    FrameIncreases(collected);
  }

  // ---- the venue's own cap ----

  /** A venue that never returns more than `cap` rows a call, however many are asked for. */
  function Capped(history: seq<Row>, cap: int): Replies {
    (n: nat, e: Option<int>, limit: int) => Newest(UpTo(history, e), MinInt(limit, cap))
  }

  /** klines_history gives the newest rows of this history. */
  predicate Suffix(history: seq<Row>, cap: int, bars: int, pageLimit: int) {
    Frame(Collect(Capped(history, cap), bars, pageLimit, true, [], None, 0)) == Newest(history, bars)
  }

  function RowsNumbered(n: nat): (rows: seq<Row>)
    ensures |rows| == n && Increasing(rows)
  {
    seq(n, i => Timed(i, ""))
  }

  /** Asked for more than the cap, the venue's full page looks short, and the loop takes it for the end of the history. */
  lemma CapLooksShort(history: seq<Row>, cap: int, pageLimit: int)
    requires 0 < cap < pageLimit && |history| == cap + 1
    ensures Collect(Capped(history, cap), cap + 1, pageLimit, true, [], None, 0) == history[1..]
  {
    var page := Newest(history, cap);
    assert UpTo(history, None) == history && page == history[1..];
    assert MinInt(MinInt(pageLimit, cap + 1), cap) == cap;
    assert [] + page == page;
  }

  lemma StopsAtTheCap(history: seq<Row>, pageLimit: int, cap: int)
    requires 0 < cap < pageLimit && Increasing(history) && |history| == cap + 1
    ensures !Suffix(history, cap, cap + 1, pageLimit)
  {
    CapLooksShort(history, cap, pageLimit);
    SuffixIncreases(history, 1);
    FrameOf(history[1..], history[1..]);
    assert |Newest(history, cap + 1)| == cap + 1;
  }

  /** klines_history reaches the newest rows of every history, whatever number is asked for, if and only if its
      page limit is within the venue's cap. */
  lemma SuffixExactlyWithinCap(pageLimit: int, cap: int)
    requires pageLimit > 0 && cap > 0
    ensures (forall history, bars | Increasing(history) :: Suffix(history, cap, bars, pageLimit)) <==> pageLimit <= cap
  {
    if pageLimit <= cap {
      forall history, bars | Increasing(history) ensures Suffix(history, cap, bars, pageLimit) {
        CollectsNewestFromStart(Capped(history, cap), history, bars, pageLimit, true);
      }
    } else {
      StopsAtTheCap(RowsNumbered(cap + 1), pageLimit, cap);
      assert Increasing(RowsNumbered(cap + 1));
    }
  }
}
