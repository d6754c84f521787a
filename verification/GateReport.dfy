/** The gate calibration report over settled counterfactuals (feedback/gate_calibration_report.py). */
module GateReport {
  import opened Common
  import opened Grouping
  import opened Statistics
  import opened ShadowBook

  const EXPECTANCY_VERDICT_THRESHOLD_R := 0.1

  datatype Verdict = CostlyGate | ProtectiveGate | NeutralGate | InsufficientSample

  /** A registry row; `kind` is None for a classification this report does not know. */
  datatype Row = Row(closed: bool, kind: Option<Kind>, resultR: real,
                     blockReason: string, blockStage: string, regime: string, direction: string)

  datatype Labels = Labels(blockStage: string, regime: string, direction: string)

  /** The registry rows of outcomes the tracker wrote. */
  function TrackerRows(outcomes: seq<Outcome>, labels: Outcome -> Labels): (rows: seq<Row>)
    ensures |rows| == |outcomes|
    ensures forall i :: 0 <= i < |rows| ==>
              && rows[i].closed && rows[i].kind == Some(outcomes[i].kind) && rows[i].resultR == outcomes[i].exit.resultR
              && rows[i].blockReason == outcomes[i].setup.blockReason && rows[i].blockStage == labels(outcomes[i]).blockStage
              && rows[i].regime == labels(outcomes[i]).regime && rows[i].direction == labels(outcomes[i]).direction
  {
    if outcomes == [] then []
    else
      var o := outcomes[|outcomes| - 1];
      TrackerRows(outcomes[..|outcomes| - 1], labels) +
      [Row(true, Some(o.kind), o.exit.resultR, o.setup.blockReason,
           labels(o).blockStage, labels(o).regime, labels(o).direction)]
  }

  function ClosedRows(rows: seq<Row>): seq<Row> {
    if rows == [] then []
    else ClosedRows(rows[..|rows| - 1]) + if rows[|rows| - 1].closed then [rows[|rows| - 1]] else []
  }

  function Count(rows: seq<Row>, kind: Kind): nat {
    if rows == [] then 0
    else Count(rows[..|rows| - 1], kind) + if rows[|rows| - 1].kind == Some(kind) then 1 else 0
  }

  function ResultR(r: Row): real { r.resultR }

  function VerdictOf(count: nat, expectancy: real, minSample: int): Verdict {
    if count < minSample then InsufficientSample
    else if expectancy > EXPECTANCY_VERDICT_THRESHOLD_R then CostlyGate
    else if expectancy < -EXPECTANCY_VERDICT_THRESHOLD_R then ProtectiveGate
    else NeutralGate
  }

  function Best(rows: seq<Row>): real
    requires rows != []
  {
    if |rows| == 1 then rows[0].resultR else Max(Best(rows[..|rows| - 1]), rows[|rows| - 1].resultR)
  }

  function Worst(rows: seq<Row>): real
    requires rows != []
  {
    if |rows| == 1 then rows[0].resultR else Min(Worst(rows[..|rows| - 1]), rows[|rows| - 1].resultR)
  }

  datatype Summary = Summary(count: nat, missed: nat, avoided: nat, neutral: nat, expectancyR: real, totalR: real,
                             missedRate: real, bestR: real, worstR: real, verdict: Verdict)

  /** summarize_counterfactuals. */
  function Summarize(rows: seq<Row>, minSample: int): Summary {
    var records := ClosedRows(rows);
    if records == [] then Summary(0, 0, 0, 0, 0.0, 0.0, 0.0, 0.0, 0.0, InsufficientSample)
    else
      var n := |records| as real;
      var total := Total(ResultR, records);
      Summary(|records|, Count(records, MissedOpportunity), Count(records, AvoidedLoss), Count(records, NeutralBlock),
              total / n, total, Count(records, MissedOpportunity) as real / n, Best(records), Worst(records),
              VerdictOf(|records|, total / n, minSample))
  }

  predicate Classified(rows: seq<Row>) {
    forall i :: 0 <= i < |rows| ==> rows[i].kind.Some?
  }

  /** Missed, avoided and neutral add up to the count exactly when every row is classified. */
  lemma {:induction false} KindsAddUp(rows: seq<Row>)
    ensures Count(rows, MissedOpportunity) + Count(rows, AvoidedLoss) + Count(rows, NeutralBlock) <= |rows|
    ensures Count(rows, MissedOpportunity) + Count(rows, AvoidedLoss) + Count(rows, NeutralBlock) == |rows| <==> Classified(rows)
  {
    if rows != [] {
      var init, last := rows[..|rows| - 1], rows[|rows| - 1];
      KindsAddUp(init);
      assert rows == init + [last];
      assert Classified(rows) <==> Classified(init) && last.kind.Some?;
      if last.kind.Some? {
        assert last.kind.value == MissedOpportunity || last.kind.value == AvoidedLoss || last.kind.value == NeutralBlock;
      }
    }
  }

  lemma {:induction false} WorstToBest(rows: seq<Row>)
    requires rows != []
    ensures forall i :: 0 <= i < |rows| ==> Worst(rows) <= rows[i].resultR <= Best(rows)
  {
    if |rows| > 1 { WorstToBest(rows[..|rows| - 1]); }
  }

  lemma OneMore(n: nat, x: real)
    ensures (n + 1) as real * x == n as real * x + x
  {
  }

  lemma {:induction false} TotalAtLeast(rows: seq<Row>, low: real)
    requires forall i :: 0 <= i < |rows| ==> low <= rows[i].resultR
    ensures |rows| as real * low <= Total(ResultR, rows)
  {
    if rows != [] {
      TotalAtLeast(rows[..|rows| - 1], low);
      OneMore(|rows| - 1, low);
    }
  }

  lemma {:induction false} TotalAtMost(rows: seq<Row>, high: real)
    requires forall i :: 0 <= i < |rows| ==> rows[i].resultR <= high
    ensures Total(ResultR, rows) <= |rows| as real * high
  {
    if rows != [] {
      TotalAtMost(rows[..|rows| - 1], high);
      OneMore(|rows| - 1, high);
    }
  }

  lemma DivideOrder(n: real, low: real, total: real, high: real)
    requires n > 0.0 && n * low <= total <= n * high
    ensures low <= total / n <= high
  {
  }

  lemma MeanBetween(records: seq<Row>)
    requires records != []
    ensures Worst(records) <= Total(ResultR, records) / |records| as real <= Best(records)
  {
    WorstToBest(records);
    TotalAtLeast(records, Worst(records));
    TotalAtMost(records, Best(records));
    DivideOrder(|records| as real, Worst(records), Total(ResultR, records), Best(records));
  }

  lemma MissedRateRange(records: seq<Row>)
    requires records != []
    ensures 0.0 <= Count(records, MissedOpportunity) as real / |records| as real <= 1.0
  {
    KindsAddUp(records);
    Share(Count(records, MissedOpportunity), |records|);
  }

  /** The expectancy lies between the worst and the best result, and the missed rate in [0, 1]. */
  lemma SummaryBounds(rows: seq<Row>, minSample: int)
    requires ClosedRows(rows) != []
    ensures var s := Summarize(rows, minSample);
            s.worstR <= s.expectancyR <= s.bestR && 0.0 <= s.missedRate <= 1.0
  {
    MeanBetween(ClosedRows(rows));
    MissedRateRange(ClosedRows(rows));
  }

  /** A row that is the best, and one that is the worst. */
  lemma {:induction false} ExtremesAreResults(rows: seq<Row>) returns (best: nat, worst: nat)
    requires rows != []
    ensures best < |rows| && worst < |rows|
    ensures Best(rows) == rows[best].resultR && Worst(rows) == rows[worst].resultR
    ensures forall i :: 0 <= i < |rows| ==> rows[worst].resultR <= rows[i].resultR <= rows[best].resultR
  {
    best, worst := |rows| - 1, |rows| - 1;
    if |rows| > 1 {
      var b, w := ExtremesAreResults(rows[..|rows| - 1]);
      best := if rows[b].resultR > rows[best].resultR then b else best;
      worst := if rows[w].resultR < rows[worst].resultR then w else worst;
    }
  }

  /** The verdict waits for the sample, then calls a gate costly above 0.1R, protective below -0.1R, and neutral between. */
  lemma VerdictIs(rows: seq<Row>, minSample: int)
    requires ClosedRows(rows) != []
    ensures var s := Summarize(rows, minSample);
            && (s.verdict == InsufficientSample <==> s.count < minSample)
            && (s.verdict == CostlyGate <==> s.count >= minSample && s.expectancyR > 0.1)
            && (s.verdict == ProtectiveGate <==> s.count >= minSample && s.expectancyR < -0.1)
            && (s.verdict == NeutralGate <==> s.count >= minSample && -0.1 <= s.expectancyR <= 0.1)
  {
  }

  /** The expectancy is the total over the count, and the missed rate the share of the missed. */
  lemma RatesAre(rows: seq<Row>, minSample: int)
    requires ClosedRows(rows) != []
    ensures var s, records := Summarize(rows, minSample), ClosedRows(rows);
            && s.count == |records| && s.totalR == Total(ResultR, records)
            && s.missed == Count(records, MissedOpportunity) && s.avoided == Count(records, AvoidedLoss)
            && s.neutral == Count(records, NeutralBlock)
            && IsShare(s.expectancyR, s.totalR, |records| as real) && IsShare(s.missedRate, s.missed as real, |records| as real)
  {
    var s, records := Summarize(rows, minSample), ClosedRows(rows);
    QuotientIsShare(s.totalR, |records| as real);
    QuotientIsShare(s.missed as real, |records| as real);
  }

  /** A group without closed rows has nothing to say. */
  lemma EmptySummaryIs(rows: seq<Row>, minSample: int)
    requires ClosedRows(rows) == []
    ensures Summarize(rows, minSample) == Summary(0, 0, 0, 0, 0.0, 0.0, 0.0, 0.0, 0.0, InsufficientSample)
  {
  }

  /** The closed rows are the rows that are closed, in order, each as often as it occurs. */
  lemma {:induction false} ClosedRowsHold(rows: seq<Row>, r: Row)
    ensures multiset(ClosedRows(rows))[r] == if r.closed then multiset(rows)[r] else 0
  {
    if rows != [] {
      var init, last := rows[..|rows| - 1], rows[|rows| - 1];
      ClosedRowsHold(init, r);
      assert rows == init + [last];
    }
  }

  // ---- grouping ----

  lemma {:induction false} ClosedRowsAreClosed(rows: seq<Row>)
    ensures forall i :: 0 <= i < |ClosedRows(rows)| ==> ClosedRows(rows)[i].closed
  {
    if rows != [] { ClosedRowsAreClosed(rows[..|rows| - 1]); }
  }

  lemma {:induction false} ClosedTwice(rows: seq<Row>)
    requires forall i :: 0 <= i < |rows| ==> rows[i].closed
    ensures ClosedRows(rows) == rows
  {
    if rows != [] {
      ClosedTwice(rows[..|rows| - 1]);
      assert rows == rows[..|rows| - 1] + [rows[|rows| - 1]];
    }
  }

  /** _group_by: a summary per value of the key, of exactly the rows with that value. */
  method GroupSummaries(key: Row -> string, rows: seq<Row>, minSample: int) returns (summaries: map<string, Summary>)
    ensures forall k :: k in summaries <==> HasKey(key, rows, k)
    ensures forall k :: k in summaries ==> summaries[k] == Summarize(Select(key, rows, k), minSample)
  {
    var groups := GroupBy(key, rows);
    summaries := map k | k in groups :: Summarize(groups[k], minSample);
  }

  /** `row.get(key) or "unknown"`: a missing value and an empty one are one group. */
  function OrUnknown(name: string): string {
    if name == "" then "unknown" else name
  }

  function ReasonOf(r: Row): string { OrUnknown(r.blockReason) }

  function StageOf(r: Row): string { OrUnknown(r.blockStage) }

  function RegimeOf(r: Row): string { OrUnknown(r.regime) }

  function DirectionOf(r: Row): string { OrUnknown(r.direction) }

  /** The groups of a report go by the row's own text, or by "unknown" where it has none. */
  lemma KeysAre(r: Row)
    ensures ReasonOf(r) == (if |r.blockReason| > 0 then r.blockReason else "unknown")
    ensures StageOf(r) == (if |r.blockStage| > 0 then r.blockStage else "unknown")
    ensures RegimeOf(r) == (if |r.regime| > 0 then r.regime else "unknown")
    ensures DirectionOf(r) == (if |r.direction| > 0 then r.direction else "unknown")
  {
  }

  // ---- the ranking ----

  /** Order of strings by code points. */
  predicate Before(a: string, b: string) {
    b != [] && (a == [] || a[0] < b[0] || (a[0] == b[0] && Before(a[1..], b[1..])))
  }

  lemma {:induction false} BeforeIsTotal(a: string, b: string)
    ensures a == b || Before(a, b) || Before(b, a)
    ensures !(Before(a, b) && Before(b, a))
  {
    if a != [] && b != [] {
      BeforeIsTotal(a[1..], b[1..]);
      assert a == [a[0]] + a[1..] && b == [b[0]] + b[1..];
    }
  }

  lemma {:induction false} BeforeIsTransitive(a: string, b: string, c: string)
    requires Before(a, b) && Before(b, c)
    ensures Before(a, c)
  {
    if a != [] && a[0] == b[0] == c[0] {
      BeforeIsTransitive(a[1..], b[1..], c[1..]);
    }
  }

  /** The order is decided at the first difference, and a beginning comes before the whole. */
  lemma {:induction false} BeforeIs(a: string, b: string, k: nat)
    requires k <= |a| && k <= |b| && a[..k] == b[..k]
    requires k == |a| || k == |b| || a[k] != b[k]
    ensures Before(a, b) <==> k < |b| && (k == |a| || a[k] < b[k])
  {
    if k > 0 {
      assert a[0] == a[..k][0] == b[..k][0] == b[0];
      assert a[1..][..k - 1] == a[..k][1..] && b[1..][..k - 1] == b[..k][1..];
      BeforeIs(a[1..], b[1..], k - 1);
    }
  }

  datatype Gate = Gate(reason: string, summary: Summary)

  /** More R turned away comes first; equal gates stay in the order of their names. */
  predicate Ahead(a: Gate, b: Gate) {
    a.summary.totalR > b.summary.totalR || (a.summary.totalR == b.summary.totalR && Before(a.reason, b.reason))
  }

  predicate Ranked(gates: seq<Gate>) {
    forall i, j :: 0 <= i < j < |gates| ==> Ahead(gates[i], gates[j])
  }

  lemma AheadIsTotal(a: Gate, b: Gate)
    requires a.reason != b.reason
    ensures Ahead(a, b) <==> !Ahead(b, a)
  {
    BeforeIsTotal(a.reason, b.reason);
  }

  lemma AheadIsTransitive(a: Gate, b: Gate, c: Gate)
    requires Ahead(a, b) && Ahead(b, c)
    ensures Ahead(a, c)
  {
    if a.summary.totalR == b.summary.totalR == c.summary.totalR {
      BeforeIsTransitive(a.reason, b.reason, c.reason);
    }
  }

  function InsertGate(gates: seq<Gate>, g: Gate): seq<Gate> {
    if gates == [] || Ahead(gates[|gates| - 1], g) then gates + [g]
    else InsertGate(gates[..|gates| - 1], g) + [gates[|gates| - 1]]
  }

  lemma {:induction false} InsertGateHolds(gates: seq<Gate>, g: Gate, x: Gate)
    ensures x in InsertGate(gates, g) <==> x in gates || x == g
  {
    if gates != [] && !Ahead(gates[|gates| - 1], g) {
      var init, last := gates[..|gates| - 1], gates[|gates| - 1];
      assert gates == init + [last];
      InsertGateHolds(init, g, x);
    }
  }

  lemma {:induction false} InsertGateRanks(gates: seq<Gate>, g: Gate)
    requires Ranked(gates) && forall i :: 0 <= i < |gates| ==> gates[i].reason != g.reason
    ensures Ranked(InsertGate(gates, g))
  {
    if gates != [] {
      var init, last := gates[..|gates| - 1], gates[|gates| - 1];
      if Ahead(last, g) {
        forall i | 0 <= i < |init| ensures Ahead(gates[i], g) {
          AheadIsTransitive(gates[i], last, g);
        }
      } else {
        AheadIsTotal(last, g);
        InsertGateRanks(init, g);
        forall i | 0 <= i < |InsertGate(init, g)| ensures Ahead(InsertGate(init, g)[i], last) {
          InsertGateHolds(init, g, InsertGate(init, g)[i]);
        }
      }
    }
  }

  predicate IsCostly(groups: map<string, Summary>, g: Gate) {
    g.reason in groups && groups[g.reason] == g.summary && g.summary.verdict == CostlyGate
  }

  /** The ranking lists the costly groups and no others, the one that turned away most R first. */
  ghost predicate IsRanking(groups: map<string, Summary>, gates: seq<Gate>) {
    Ranked(gates) && forall g :: g in gates <==> IsCostly(groups, g)
  }

  /** Every costly group is ranked and nothing else: a group with enough closed rows that would have averaged above 0.1R. */
  lemma RankedAreCostly(key: Row -> string, rows: seq<Row>, minSample: int, groups: map<string, Summary>, gates: seq<Gate>, k: string)
    requires IsGroupReport(key, rows, minSample, groups) && IsRanking(groups, gates) && k in groups
    requires ClosedRows(Select(key, rows, k)) != []
    ensures Gate(k, groups[k]) in gates <==> groups[k].count >= minSample && groups[k].expectancyR > 0.1
  {
    VerdictIs(Select(key, rows, k), minSample);
    assert Gate(k, groups[k]) in gates <==> IsCostly(groups, Gate(k, groups[k]));
  }

  /** sorted(costly, key=total_R, reverse=True) over groups already sorted by name. */
  method RankCostly(groups: map<string, Summary>) returns (gates: seq<Gate>)
    ensures IsRanking(groups, gates)
  {
    gates := [];
    var left := groups.Keys;
    while left != {}
      invariant left <= groups.Keys && Ranked(gates)
      invariant forall g :: g in gates <==> IsCostly(groups, g) && g.reason !in left
      decreases left
    {
      var reason :| reason in left;
      var g := Gate(reason, groups[reason]);
      if g.summary.verdict == CostlyGate {
        InsertGateRanks(gates, g);
        forall x ensures x in InsertGate(gates, g) <==> x in gates || x == g {
          InsertGateHolds(gates, g, x);
        }
        gates := InsertGate(gates, g);
      }
      left := left - {reason};
    }
  }

  lemma AheadIsIrreflexive(g: Gate)
    ensures !Ahead(g, g)
  {
    BeforeIsTotal(g.reason, g.reason);
  }

  lemma RankedHoldsOnce(gates: seq<Gate>, x: Gate)
    requires Ranked(gates) && gates != []
    ensures x in gates[1..] <==> x in gates && x != gates[0]
  {
    assert gates == [gates[0]] + gates[1..];
    forall i | 1 <= i < |gates| ensures gates[i] != gates[0] {
      AheadIsIrreflexive(gates[0]);
      assert Ahead(gates[0], gates[i]);
    }
  }

  lemma FirstIsFirst(a: seq<Gate>, b: seq<Gate>)
    requires Ranked(a) && Ranked(b) && a != [] && b != [] && a[0] in b && b[0] in a
    ensures a[0] == b[0]
  {
    if a[0] != b[0] {
      assert Ahead(a[0], b[0]) && Ahead(b[0], a[0]);
      AheadIsTransitive(a[0], b[0], a[0]);
      AheadIsIrreflexive(a[0]);
    }
  }

  /** The ranking is determined by the groups, whatever order they are visited in. */
  lemma {:induction false} RankingIsUnique(a: seq<Gate>, b: seq<Gate>)
    requires Ranked(a) && Ranked(b) && forall g :: g in a <==> g in b
    ensures a == b
    decreases |a|
  {
    assert b == [] || b[0] in a;
    if a != [] {
      assert a[0] in b;
      FirstIsFirst(a, b);
      forall g ensures g in a[1..] <==> g in b[1..] {
        RankedHoldsOnce(a, g);
        RankedHoldsOnce(b, g);
      }
      RankingIsUnique(a[1..], b[1..]);
    }
  }

  // ---- the report ----

  datatype Report = Report(overall: Summary, byReason: map<string, Summary>, byStage: map<string, Summary>,
                           byRegime: map<string, Summary>, byDirection: map<string, Summary>, costly: seq<Gate>)

  /** build_gate_calibration_report. */
  method BuildReport(outcomes: seq<Row>, minSample: int) returns (report: Report)
    ensures report.overall == Summarize(ClosedRows(outcomes), minSample)
    ensures IsGroupReport(ReasonOf, ClosedRows(outcomes), minSample, report.byReason)
    ensures IsGroupReport(StageOf, ClosedRows(outcomes), minSample, report.byStage)
    ensures IsGroupReport(RegimeOf, ClosedRows(outcomes), minSample, report.byRegime)
    ensures IsGroupReport(DirectionOf, ClosedRows(outcomes), minSample, report.byDirection)
    ensures IsRanking(report.byReason, report.costly)
  {
    var rows := ClosedRows(outcomes);
    var byReason := GroupSummaries(ReasonOf, rows, minSample);
    var byStage := GroupSummaries(StageOf, rows, minSample);
    var byRegime := GroupSummaries(RegimeOf, rows, minSample);
    var byDirection := GroupSummaries(DirectionOf, rows, minSample);
    var costly := RankCostly(byReason);
    report := Report(Summarize(rows, minSample), byReason, byStage, byRegime, byDirection, costly);
  }

  ghost predicate IsGroupReport(key: Row -> string, rows: seq<Row>, minSample: int, groups: map<string, Summary>) {
    forall k :: (k in groups <==> HasKey(key, rows, k)) &&
                (k in groups ==> groups[k] == Summarize(Select(key, rows, k), minSample))
  }

  lemma {:induction false} SelectedAreClosed(key: Row -> string, rows: seq<Row>, k: string)
    requires forall i :: 0 <= i < |rows| ==> rows[i].closed
    ensures forall i :: 0 <= i < |Select(key, rows, k)| ==> Select(key, rows, k)[i].closed
  {
    if rows != [] { SelectedAreClosed(key, rows[..|rows| - 1], k); }
  }

  function CountSum(groups: map<string, Summary>, keys: seq<string>): nat
    requires forall k :: k in keys ==> k in groups
  {
    if keys == [] then 0 else CountSum(groups, keys[..|keys| - 1]) + groups[keys[|keys| - 1]].count
  }

  function TotalSum(groups: map<string, Summary>, keys: seq<string>): real
    requires forall k :: k in keys ==> k in groups
  {
    if keys == [] then 0.0 else TotalSum(groups, keys[..|keys| - 1]) + groups[keys[|keys| - 1]].totalR
  }

  lemma GroupFigures(key: Row -> string, rows: seq<Row>, minSample: int, groups: map<string, Summary>, k: string)
    requires IsGroupReport(key, rows, minSample, groups) && k in groups
    requires forall i :: 0 <= i < |rows| ==> rows[i].closed
    ensures groups[k].count as real == Total(One, Select(key, rows, k))
    ensures groups[k].totalR == Total(ResultR, Select(key, rows, k))
  {
    SelectedAreClosed(key, rows, k);
    ClosedTwice(Select(key, rows, k));
    TotalOfOnes(Select(key, rows, k));
  }

  lemma {:induction false} SumsAreGroupTotals(key: Row -> string, rows: seq<Row>, minSample: int,
                                              groups: map<string, Summary>, keys: seq<string>)
    requires IsGroupReport(key, rows, minSample, groups) && forall k :: k in keys ==> k in groups
    requires forall i :: 0 <= i < |rows| ==> rows[i].closed
    ensures CountSum(groups, keys) as real == TotalOfGroups(key, One, rows, keys)
    ensures TotalSum(groups, keys) == TotalOfGroups(key, ResultR, rows, keys)
  {
    if keys != [] {
      SumsAreGroupTotals(key, rows, minSample, groups, keys[..|keys| - 1]);
      GroupFigures(key, rows, minSample, groups, keys[|keys| - 1]);
    }
  }

  /** In whatever order the groups are listed, each once, their counts and total R add up to the overall figures. */
  lemma GroupsAddUp(key: Row -> string, outcomes: seq<Row>, minSample: int, groups: map<string, Summary>, keys: seq<string>)
    requires IsGroupReport(key, ClosedRows(outcomes), minSample, groups)
    requires NoDuplicates(keys) && forall k :: k in keys <==> k in groups
    ensures CountSum(groups, keys) == Summarize(ClosedRows(outcomes), minSample).count
    ensures TotalSum(groups, keys) == Summarize(ClosedRows(outcomes), minSample).totalR
  {
    var rows := ClosedRows(outcomes);
    ClosedRowsAreClosed(outcomes);
    ClosedTwice(rows);
    SumsAreGroupTotals(key, rows, minSample, groups, keys);
    forall i | 0 <= i < |rows| ensures key(rows[i]) in keys {
      assert HasKey(key, rows, key(rows[i]));
    }
    GroupTotalsAddUp(key, One, rows, keys);
    GroupTotalsAddUp(key, ResultR, rows, keys);
    TotalOfOnes(rows);
  }

  /** Of the tracker's own outcomes every one is counted, as missed, avoided or neutral. */
  lemma TrackerRowsAddUp(outcomes: seq<Outcome>, labels: Outcome -> Labels, minSample: int)
    ensures var s := Summarize(TrackerRows(outcomes, labels), minSample);
            s.count == |outcomes| && s.missed + s.avoided + s.neutral == s.count
  {
    var rows := TrackerRows(outcomes, labels);
    ClosedTwice(rows);
    assert Classified(rows);
    KindsAddUp(rows);
  }
}
