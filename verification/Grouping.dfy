/** Splitting a list of rows into per-key groups with a dict of lists, as
    backtesting/regime_evaluator.py and feedback/gate_calibration_report.py do. */
module Grouping {

  /** The rows with this key, in order. */
  function Select<K(==), V>(key: V -> K, rows: seq<V>, k: K): seq<V> {
    if rows == [] then []
    else Select(key, rows[..|rows| - 1], k) + if key(rows[|rows| - 1]) == k then [rows[|rows| - 1]] else []
  }

  predicate HasKey<K(==), V>(key: V -> K, rows: seq<V>, k: K) {
    exists i :: 0 <= i < |rows| && key(rows[i]) == k
  }

  /** The dict holds, for every key, the rows with that key in order, and no empty group. */
  ghost predicate IsGrouping<K(!new), V>(key: V -> K, rows: seq<V>, groups: map<K, seq<V>>) {
    forall k :: Select(key, rows, k) == (if k in groups then groups[k] else []) && (k in groups ==> groups[k] != [])
  }

  lemma {:induction false} SelectedIffKeyed<K, V>(key: V -> K, rows: seq<V>, k: K)
    ensures Select(key, rows, k) != [] <==> HasKey(key, rows, k)
  {
    if rows != [] {
      var n := |rows| - 1;
      SelectedIffKeyed(key, rows[..n], k);
      if HasKey(key, rows[..n], k) {
        var i :| 0 <= i < n && key(rows[..n][i]) == k;
        assert key(rows[i]) == k;
      }
      if HasKey(key, rows, k) && key(rows[n]) != k {
        var i :| 0 <= i < |rows| && key(rows[i]) == k;
        assert key(rows[..n][i]) == k;
      }
    }
  }

  lemma GroupOne<K(!new), V>(key: V -> K, rows: seq<V>, v: V, groups: map<K, seq<V>>)
    requires IsGrouping(key, rows, groups)
    ensures var k := key(v);
            IsGrouping(key, rows + [v], groups[k := (if k in groups then groups[k] else []) + [v]])
  {
  }

  /** groups.setdefault(key, []).append(row), row by row. */
  method GroupBy<K(==, !new), V>(key: V -> K, rows: seq<V>) returns (groups: map<K, seq<V>>)
    ensures forall k :: k in groups <==> HasKey(key, rows, k)
    ensures forall k :: k in groups ==> groups[k] == Select(key, rows, k) && groups[k] != []
  {
    groups := map[];
    for n := 0 to |rows|
      invariant IsGrouping(key, rows[..n], groups)
    {
      var k := key(rows[n]);
      GroupOne(key, rows[..n], rows[n], groups);
      assert rows[..n + 1] == rows[..n] + [rows[n]];
      groups := groups[k := (if k in groups then groups[k] else []) + [rows[n]]];
    }
    assert rows[..|rows|] == rows;
    forall k ensures k in groups <==> HasKey(key, rows, k) {
      SelectedIffKeyed(key, rows, k);
      assert Select(key, rows, k) == if k in groups then groups[k] else [];
    }
  }

  function Total<V>(weight: V -> real, rows: seq<V>): real {
    if rows == [] then 0.0 else Total(weight, rows[..|rows| - 1]) + weight(rows[|rows| - 1])
  }

  /** The weight that counts rows. */
  function One<V>(v: V): real { 1.0 }

  lemma {:induction false} TotalOfOnes<V>(rows: seq<V>)
    ensures Total<V>(One, rows) == |rows| as real
  {
    if rows != [] { TotalOfOnes(rows[..|rows| - 1]); }
  }

  /** Weights that add up row by row add up in total. */
  lemma {:induction false} TotalOfSums<V>(a: V -> real, b: V -> real, c: V -> real, sum: V -> real, rows: seq<V>)
    requires forall i :: 0 <= i < |rows| ==> a(rows[i]) + b(rows[i]) + c(rows[i]) == sum(rows[i])
    ensures Total(a, rows) + Total(b, rows) + Total(c, rows) == Total(sum, rows)
  {
    if rows != [] { TotalOfSums(a, b, c, sum, rows[..|rows| - 1]); }
  }

  /** The total of each listed group, added up. */
  function TotalOfGroups<K(==), V>(key: V -> K, weight: V -> real, rows: seq<V>, keys: seq<K>): real {
    if keys == [] then 0.0
    else TotalOfGroups(key, weight, rows, keys[..|keys| - 1]) + Total(weight, Select(key, rows, keys[|keys| - 1]))
  }

  predicate NoDuplicates<K(==)>(keys: seq<K>) {
    forall i, j :: 0 <= i < j < |keys| ==> keys[i] != keys[j]
  }

  lemma {:induction false} TotalSnoc<V>(weight: V -> real, rows: seq<V>, v: V)
    ensures Total(weight, rows + [v]) == Total(weight, rows) + weight(v)
  {
  }

  lemma {:induction false} NoRowsNoTotals<K, V>(key: V -> K, weight: V -> real, keys: seq<K>)
    ensures TotalOfGroups(key, weight, [], keys) == 0.0
  {
    if keys != [] { NoRowsNoTotals(key, weight, keys[..|keys| - 1]); }
  }

  /** One more row adds its weight to the group totals once, if its key is listed. */
  lemma {:induction false} OneMoreRow<K, V>(key: V -> K, weight: V -> real, rows: seq<V>, v: V, keys: seq<K>)
    requires NoDuplicates(keys)
    ensures TotalOfGroups(key, weight, rows + [v], keys) ==
            TotalOfGroups(key, weight, rows, keys) + if key(v) in keys then weight(v) else 0.0
  {
    if keys != [] {
      var last, rest := keys[|keys| - 1], keys[..|keys| - 1];
      OneMoreRow(key, weight, rows, v, rest);
      assert (rows + [v])[..|rows|] == rows;
      assert keys == rest + [last];
      if key(v) == last {
        TotalSnoc(weight, Select(key, rows, last), v);
        assert last !in rest;
      } else {
        assert Select(key, rows + [v], last) == Select(key, rows, last);
      }
    }
  }

  /** Conservation: in whatever order the groups are listed, if every row's key is listed
      once, the group totals add back to the total over all rows. */
  lemma {:induction false} GroupTotalsAddUp<K, V>(key: V -> K, weight: V -> real, rows: seq<V>, keys: seq<K>)
    requires NoDuplicates(keys)
    requires forall i :: 0 <= i < |rows| ==> key(rows[i]) in keys
    ensures TotalOfGroups(key, weight, rows, keys) == Total(weight, rows)
  {
    if rows == [] {
      NoRowsNoTotals(key, weight, keys);
    } else {
      var rest, v := rows[..|rows| - 1], rows[|rows| - 1];
      assert rows == rest + [v];
      GroupTotalsAddUp(key, weight, rest, keys);
      OneMoreRow(key, weight, rest, v, keys);
    }
  }
}
