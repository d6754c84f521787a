/** Values with a timestamp, and sorting them by it as a stable sort does. */
module TimeSeries {

  /** A value with its timestamp. */
  datatype Timed<V> = Timed(ts: int, v: V)

  function Insert<V>(sorted: seq<Timed<V>>, e: Timed<V>): seq<Timed<V>> {
    if sorted == [] || sorted[|sorted| - 1].ts <= e.ts then sorted + [e]
    else Insert(sorted[..|sorted| - 1], e) + [sorted[|sorted| - 1]]
  }

  function SortByTime<V>(items: seq<Timed<V>>): seq<Timed<V>> {
    if items == [] then [] else Insert(SortByTime(items[..|items| - 1]), items[|items| - 1])
  }

  predicate Ordered<V>(items: seq<Timed<V>>) {
    forall i, j :: 0 <= i < j < |items| ==> items[i].ts <= items[j].ts
  }

  lemma {:induction false} InsertHolds<V>(sorted: seq<Timed<V>>, e: Timed<V>, x: Timed<V>)
    ensures x in Insert(sorted, e) <==> x in sorted || x == e
  {
    if sorted != [] && sorted[|sorted| - 1].ts > e.ts {
      var last, init := sorted[|sorted| - 1], sorted[..|sorted| - 1];
      assert sorted == init + [last];
      InsertHolds(init, e, x);
    }
  }

  lemma {:induction false} InsertOrders<V>(sorted: seq<Timed<V>>, e: Timed<V>)
    requires Ordered(sorted)
    ensures Ordered(Insert(sorted, e))
  {
    if sorted != [] && sorted[|sorted| - 1].ts > e.ts {
      var last, init := sorted[|sorted| - 1], sorted[..|sorted| - 1];
      InsertOrders(init, e);
      forall i | 0 <= i < |Insert(init, e)| ensures Insert(init, e)[i].ts <= last.ts {
        InsertHolds(init, e, Insert(init, e)[i]);
      }
    }
  }

  lemma {:induction false} SortHolds<V>(items: seq<Timed<V>>, x: Timed<V>)
    ensures x in SortByTime(items) <==> x in items
  {
    if items != [] {
      var last, init := items[|items| - 1], items[..|items| - 1];
      assert items == init + [last];
      SortHolds(init, x);
      InsertHolds(SortByTime(init), last, x);
    }
  }

  lemma {:induction false} SortOrders<V>(items: seq<Timed<V>>)
    ensures Ordered(SortByTime(items))
  {
    if items != [] {
      SortOrders(items[..|items| - 1]);
      InsertOrders(SortByTime(items[..|items| - 1]), items[|items| - 1]);
    }
  }
}
