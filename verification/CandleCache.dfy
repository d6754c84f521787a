/** The on-disk cache in front of the paging loops (data/candle_history.py). */
module CandleCache {
  import opened Common
  import opened Paging

  /** Python's s[-k:], for every k. */
  function TailSlice<T>(s: seq<T>, k: int): seq<T> {
    if k <= 0 then (if -k >= |s| then [] else s[-k..])
    else if k >= |s| then s
    else s[|s| - k..]
  }

  datatype Loaded = Rows(rows: seq<Row>, hit: bool) | IndexError

  /** cached[-bars:] is the newest `bars` rows exactly when bars is positive (or there is nothing
      to slice wrongly): asked for 0 rows, a hit hands out the whole cached series. */
  lemma HitIsNewest(cached: seq<Row>, bars: int)
    requires |cached| >= bars
    ensures TailSlice(cached, bars) == Newest(cached, bars) <==> bars > 0 || |cached| <= -bars
  {
  }

  /** A suffix of a suffix is the suffix of the whole, as long as it is not asked for more than it holds. */
  lemma NewestOfNewest(history: seq<Row>, depth: int, bars: int)
    requires bars <= |Newest(history, depth)|
    ensures Newest(Newest(history, depth), bars) == Newest(history, bars)
  {
  }

  /** One cache file, `<symbol>_<interval>.json`. */
  class CacheFile {
    var cached: Option<seq<Row>>
    ghost var source: seq<Row>  // the series the file was fetched from
    ghost var depth: int        // how many rows of it were asked for

    ghost predicate Valid()
      reads this
    {
      cached.Some? ==> cached.value == Newest(source, depth)
    }

    constructor ()
      ensures Valid() && cached == None
    {
      cached, source, depth := None, [], 0;
    }

    /** The fetch both loaders fall back to: page the venue, and overwrite the file unless nothing came back. */
    method Fetch(reply: Replies, ghost history: seq<Row>, bars: int, pageLimit: int, stopOnShort: bool)
      returns (rows: seq<Row>)
      requires Valid()
      modifies this
      ensures Valid()
      ensures Honest(reply, history, pageLimit, stopOnShort) ==> rows == Newest(history, bars)
      ensures Honest(reply, history, pageLimit, stopOnShort) && rows != [] ==> source == history
      ensures if rows == [] then unchanged(this) else cached == Some(rows)
    {
      var collected: seq<Row>;
      if stopOnShort {
        rows, collected := KlinesHistory(reply, history, bars, pageLimit);
      } else {
        rows, collected := FundingRateHistory(reply, history, bars, pageLimit);
      }
      ghost var honest := Honest(reply, history, pageLimit, stopOnShort);
      if rows != [] {
        cached, source, depth := Some(rows), if honest then history else rows, if honest then bars else |rows|;
      }
    }

    /** load_candle_history (stopOnShort) and load_funding_history (not): reuse the file when it is deep
        and fresh enough, otherwise fetch. A hit is the newest rows of the series last fetched. */
    method Load(reply: Replies, ghost history: seq<Row>, bars: int, pageLimit: int, stopOnShort: bool,
                refresh: bool, now: int, maxAge: int)
      returns (loaded: Loaded)
      requires Valid()
      modifies this
      ensures Valid()
      ensures loaded.IndexError? <==> !refresh && bars <= 0 && old(cached) == Some([])
      ensures loaded.IndexError? ||
              (loaded.hit <==>
                 && !refresh && old(cached).Some? && |old(cached).value| > 0 && |old(cached).value| >= bars
                 && now - old(cached).value[|old(cached).value| - 1].ts <= maxAge)
      ensures loaded.IndexError? || loaded.hit ==> unchanged(this)
      ensures loaded.Rows? && loaded.hit && bars > 0 ==> loaded.rows == Newest(source, bars)
      ensures loaded.Rows? && !loaded.hit ==> cached == if loaded.rows == [] then old(cached) else Some(loaded.rows)
      ensures loaded.Rows? && !loaded.hit && Honest(reply, history, pageLimit, stopOnShort) ==>
                loaded.rows == Newest(history, bars) && (loaded.rows == [] || source == history)
    {
      if !refresh && cached.Some? && |cached.value| >= bars {
        if cached.value == [] {
          return IndexError;
        } else if now - cached.value[|cached.value| - 1].ts <= maxAge {
          HitIsNewest(cached.value, bars);
          NewestOfNewest(source, depth, bars);
          return Rows(TailSlice(cached.value, bars), true);
        }
      }
      var rows := Fetch(reply, history, bars, pageLimit, stopOnShort);
      loaded := Rows(rows, false);
    }
  }
}
