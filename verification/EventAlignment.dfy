/** Backward alignment of an event series onto bars (features/feature_store.py, _asof_align_events). */
module EventAlignment {
  import opened Common
  import opened TimeSeries

  type Value = Option<real>  // None is NaN

  // ---- what a bar should carry ----

  /** The last event at or before t; of events with one timestamp, the last listed. */
  function Latest(events: seq<Timed<Value>>, t: int): Option<Timed<Value>> {
    if events == [] then None
    else Newer(Latest(events[..|events| - 1], t), events[|events| - 1], t)
  }

  function Newer(best: Option<Timed<Value>>, e: Timed<Value>, t: int): Option<Timed<Value>> {
    if e.ts <= t && (best.None? || best.value.ts <= e.ts) then Some(e) else best
  }

  function ValueAt(events: seq<Timed<Value>>, stamp: Option<int>): Value {
    if stamp.None? then None
    else match Latest(events, stamp.value) case Some(e) => e.v case None => None
  }

  lemma LatestSnoc(events: seq<Timed<Value>>, e: Timed<Value>, t: int)
    ensures Latest(events + [e], t) == Newer(Latest(events, t), e, t)
  {
  }

  lemma {:induction false} LatestIsListed(events: seq<Timed<Value>>, t: int)
    ensures Latest(events, t).Some? ==> Latest(events, t).value in events && Latest(events, t).value.ts <= t
    ensures forall i :: 0 <= i < |events| && events[i].ts <= t ==>
              Latest(events, t).Some? && events[i].ts <= Latest(events, t).value.ts
  {
    if events != [] {
      LatestIsListed(events[..|events| - 1], t);
      forall i | 0 <= i < |events| - 1 && events[i].ts <= t
        ensures Latest(events, t).Some? && events[i].ts <= Latest(events, t).value.ts
      {
        assert events[..|events| - 1][i].ts <= t;
      }
    }
  }

  /** A bar carries an event at or before it with no event in between, or nothing when there is none. */
  lemma LatestIsTheLastAtOrBefore(events: seq<Timed<Value>>, t: int)
    ensures Latest(events, t).None? <==> forall e :: e in events ==> e.ts > t
    ensures Latest(events, t).Some? ==>
              var last := Latest(events, t).value;
              last in events && last.ts <= t && forall e :: e in events && e.ts <= t ==> e.ts <= last.ts
  {
  }

  /** The events at or before t, in order. */
  function Past(events: seq<Timed<Value>>, t: int): seq<Timed<Value>> {
    if events == [] then []
    else Past(events[..|events| - 1], t) + if events[|events| - 1].ts <= t then [events[|events| - 1]] else []
  }

  /** No leak: a bar is unaffected by every event after it. */
  lemma {:induction false} LaterEventsDoNotLeak(events: seq<Timed<Value>>, t: int)
    ensures Latest(events, t) == Latest(Past(events, t), t)
  {
    if events != [] {
      var past, last := Past(events[..|events| - 1], t), events[|events| - 1];
      LaterEventsDoNotLeak(events[..|events| - 1], t);
      if last.ts <= t {
        LatestSnoc(past, last, t);
      } else {
        assert Past(events, t) == past;
      }
    }
  }

  // ---- the merge ----

  lemma NewerCommutes(best: Option<Timed<Value>>, e: Timed<Value>, last: Timed<Value>, t: int)
    requires e.ts < last.ts && (best.Some? ==> best.value.ts <= last.ts)
    ensures Newer(Newer(best, e, t), last, t) == Newer(Newer(best, last, t), e, t)
  {
  }

  lemma LatestInInit(sorted: seq<Timed<Value>>, t: int)
    requires sorted != [] && Ordered(sorted)
    ensures var best := Latest(sorted[..|sorted| - 1], t);
            best.Some? ==> best.value.ts <= sorted[|sorted| - 1].ts
  {
    var init := sorted[..|sorted| - 1];
    LatestIsListed(init, t);
    if Latest(init, t).Some? {
      var j :| 0 <= j < |init| && init[j] == Latest(init, t).value;
      assert sorted[j].ts <= sorted[|init|].ts;
    }
  }

  lemma {:induction false} LatestAfterInsert(sorted: seq<Timed<Value>>, e: Timed<Value>, t: int)
    requires Ordered(sorted)
    ensures Latest(Insert(sorted, e), t) == Newer(Latest(sorted, t), e, t)
  {
    if sorted == [] || sorted[|sorted| - 1].ts <= e.ts {
      LatestSnoc(sorted, e, t);
    } else {
      var last, init := sorted[|sorted| - 1], sorted[..|sorted| - 1];
      LatestAfterInsert(init, e, t);
      LatestSnoc(Insert(init, e), last, t);
      LatestInInit(sorted, t);
      NewerCommutes(Latest(init, t), e, last, t);
    }
  }

  /** Sorting first does not change what a bar carries. */
  lemma {:induction false} LatestOfSorted(events: seq<Timed<Value>>, t: int)
    ensures Latest(SortByTime(events), t) == Latest(events, t)
  {
    if events != [] {
      var init := events[..|events| - 1];
      LatestOfSorted(init, t);
      SortOrders(init);
      LatestAfterInsert(SortByTime(init), events[|events| - 1], t);
    }
  }

  /** In sorted events the last at or before t is the one before the first that is later. */
  lemma {:induction false} LatestAtSplit(sorted: seq<Timed<Value>>, t: int, j: nat)
    requires Ordered(sorted) && j <= |sorted|
    requires j > 0 ==> sorted[j - 1].ts <= t
    requires j < |sorted| ==> sorted[j].ts > t
    ensures Latest(sorted, t) == if j == 0 then None else Some(sorted[j - 1])
  {
    if j < |sorted| {
      LatestAtSplit(sorted[..|sorted| - 1], t, j);
    } else if j > 0 {
      LatestIsListed(sorted[..j - 1], t);
    }
  }

  /** The bars with a timestamp, each with its row number. */
  function Stamped(stamps: seq<Option<int>>): seq<Timed<nat>> {
    if stamps == [] then []
    else
      var n := |stamps| - 1;
      Stamped(stamps[..n]) + if stamps[n].Some? then [Timed(stamps[n].value, n)] else []
  }

  lemma {:induction false} StampedLists(stamps: seq<Option<int>>, x: Timed<nat>)
    ensures x in Stamped(stamps) <==> x.v < |stamps| && stamps[x.v] == Some(x.ts)
  {
    if stamps != [] {
      StampedLists(stamps[..|stamps| - 1], x);
    }
  }

  /** merge_asof backward over sorted rows and sorted events, in one sweep. */
  method MergeAsof(rows: seq<Timed<nat>>, events: seq<Timed<Value>>) returns (merged: seq<Value>)
    requires Ordered(rows) && Ordered(events)
    ensures |merged| == |rows|
    ensures forall k :: 0 <= k < |rows| ==> merged[k] == ValueAt(events, Some(rows[k].ts))
  {
    merged := [];
    var j := 0;
    for k := 0 to |rows|
      invariant |merged| == k && 0 <= j <= |events|
      invariant k > 0 && j > 0 ==> events[j - 1].ts <= rows[k - 1].ts
      invariant k == 0 ==> j == 0
      invariant forall i :: 0 <= i < k ==> merged[i] == ValueAt(events, Some(rows[i].ts))
    {
      while j < |events| && events[j].ts <= rows[k].ts
        invariant 0 <= j <= |events| && (j > 0 ==> events[j - 1].ts <= rows[k].ts)
      {
        j := j + 1;
      }
      LatestAtSplit(events, rows[k].ts, j);
      merged := merged + [if j > 0 then events[j - 1].v else None];
    }
  }

  /** The sorted rows are the stamped ones, each with its row number. */
  lemma SortedRows(stamps: seq<Option<int>>) returns (valid: seq<Timed<nat>>)
    ensures valid == SortByTime(Stamped(stamps)) && Ordered(valid)
    ensures forall k :: 0 <= k < |valid| ==> valid[k].v < |stamps| && stamps[valid[k].v] == Some(valid[k].ts)
    ensures forall i :: 0 <= i < |stamps| && stamps[i].Some? ==> exists k :: 0 <= k < |valid| && valid[k].v == i
  {
    valid := SortByTime(Stamped(stamps));
    SortOrders(Stamped(stamps));
    forall k | 0 <= k < |valid| ensures valid[k].v < |stamps| && stamps[valid[k].v] == Some(valid[k].ts) {
      SortHolds(Stamped(stamps), valid[k]);
      StampedLists(stamps, valid[k]);
    }
    forall i | 0 <= i < |stamps| && stamps[i].Some? ensures exists k :: 0 <= k < |valid| && valid[k].v == i {
      StampedLists(stamps, Timed(stamps[i].value, i));
      SortHolds(Stamped(stamps), Timed(stamps[i].value, i));
    }
  }

  /** out[order] = merged: row numbers may come in any order. */
  method Scatter(out: array<Value>, valid: seq<Timed<nat>>, merged: seq<Value>, ghost value: int -> Value)
    requires |merged| == |valid| && forall k :: 0 <= k < |valid| ==> valid[k].v < out.Length
    requires forall k :: 0 <= k < |valid| ==> merged[k] == value(valid[k].v)
    modifies out
    ensures forall k :: 0 <= k < |valid| ==> out[valid[k].v] == value(valid[k].v)
    ensures forall i :: 0 <= i < out.Length && (forall k :: 0 <= k < |valid| ==> valid[k].v != i) ==> out[i] == old(out[i])
  {
    for k := 0 to |valid|
      invariant forall m :: 0 <= m < k ==> out[valid[m].v] == value(valid[m].v)
      invariant forall i :: 0 <= i < out.Length && (forall m :: 0 <= m < |valid| ==> valid[m].v != i) ==> out[i] == old(out[i])
    {
      out[valid[k].v] := merged[k];
    }
  }

  /** _asof_align_events, for one column: every bar carries the last event at or before it. */
  method AsofAlignEvents(stamps: seq<Option<int>>, events: seq<Timed<Value>>) returns (out: array<Value>)
    ensures fresh(out) && out.Length == |stamps|
    ensures forall i :: 0 <= i < |stamps| ==> out[i] == ValueAt(events, stamps[i])
  {
    out := new Value[|stamps|](_ => None);
    var ev, valid := SortByTime(events), SortByTime(Stamped(stamps));
    SortOrders(events);
    ghost var rows := SortedRows(stamps);
    var merged := MergeAsof(valid, ev);
    ghost var value := (i: int) => if 0 <= i < |stamps| then ValueAt(events, stamps[i]) else None;
    forall k | 0 <= k < |valid| ensures merged[k] == value(valid[k].v) {
      LatestOfSorted(events, valid[k].ts);
    }
    Scatter(out, valid, merged, value);
    forall i | 0 <= i < |stamps| ensures out[i] == ValueAt(events, stamps[i]) {
      if stamps[i].Some? {
        var k :| 0 <= k < |valid| && valid[k].v == i;
        assert out[valid[k].v] == value(i);
      }
    }
  }
}
