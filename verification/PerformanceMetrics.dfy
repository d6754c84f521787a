/** The R metrics of a trade ledger, and their breakdown by entry regime
    (backtesting/performance_metrics.py, backtesting/regime_evaluator.py). */
module PerformanceMetrics {
  import opened Common
  import opened CostModel
  import opened Simulator
  import opened Grouping
  import opened BacktestMetrics
  import opened Statistics
  import opened Drawdown

  datatype Metrics = Metrics(count: nat, winRate: Option<real>, expectancyR: Option<real>, profitFactor: Option<real>,
                             avgWinR: Option<real>, avgLossR: Option<real>, grossProfitR: real, grossLossR: real,
                             totalNetR: real, maxDrawdownR: real, sharpe: Option<real>, sortino: Option<real>,
                             feeR: real, slippageR: real, longR: Option<real>, shortR: Option<real>,
                             consistency: Option<real>)

  const NO_TRADES := Metrics(0, None, None, None, None, None, 0.0, 0.0, 0.0, 0.0, None, None, 0.0, 0.0, None, None, None)

  // ---- lists of results ----

  function Mean(xs: seq<real>): Option<real> {
    if xs == [] then None else Some(Sum(xs) / |xs| as real)
  }

  function Wins(xs: seq<real>): seq<real> {
    if xs == [] then []
    else if xs[|xs| - 1] > 0.0 then Wins(xs[..|xs| - 1]) + [xs[|xs| - 1]]
    else Wins(xs[..|xs| - 1])
  }

  function Losses(xs: seq<real>): seq<real> {
    if xs == [] then []
    else if xs[|xs| - 1] < 0.0 then Losses(xs[..|xs| - 1]) + [xs[|xs| - 1]]
    else Losses(xs[..|xs| - 1])
  }

  function Downside(xs: seq<real>): seq<real> {
    if xs == [] then [] else Downside(xs[..|xs| - 1]) + [Min(xs[|xs| - 1], 0.0)]
  }

  function Results(trades: seq<Trade>): seq<real> {
    if trades == [] then [] else Results(trades[..|trades| - 1]) + [NetR(trades[|trades| - 1])]
  }

  /** The root mean square distance of xs from `centre`, over n results. */
  function Deviation(sqrt: real -> real, xs: seq<real>, centre: real, n: nat): real
    requires n > 0
  {
    sqrt(SquaredDistances(xs, centre) / n as real)
  }

  /** A mean over a deviation: undefined below two results or when nothing deviates. */
  function Ratio(mean: real, deviation: real, n: nat): Option<real> {
    if n < 2 || deviation == 0.0 then None else Some(mean / deviation)
  }

  function OfSide(trades: seq<Trade>, side: Direction): seq<Trade> {
    Select(SideOf, trades, side)
  }

  function SideOf(t: Trade): Direction { t.pos.side }

  // ---- regimes ----

  function EntryRegime(t: Trade): Option<string> { t.pos.regime }

  function Regimes(trades: seq<Trade>): set<string> {
    set i | 0 <= i < |trades| && trades[i].pos.regime.Some? :: trades[i].pos.regime.value
  }

  predicate Profits(rs: seq<real>) {
    rs != [] && Mean(rs).value > 0.0
  }

  function ProfitableRegimes(trades: seq<Trade>): set<string> {
    set r | r in Regimes(trades) && Profits(Results(Select(EntryRegime, trades, Some(r))))
  }

  /** _regime_consistency: the share of the recorded regimes with a positive mean. */
  function Consistency(trades: seq<Trade>): Option<real> {
    if Regimes(trades) == {} then None
    else Some(|ProfitableRegimes(trades)| as real / |Regimes(trades)| as real)
  }

  // ---- the metrics ----

  ghost predicate IsMetrics(sqrt: real -> real, trades: seq<Trade>, m: Metrics) {
    var rs, n := Results(trades), |trades|;
    if trades == [] then m == NO_TRADES
    else
      && m.count == n && m.totalNetR == Sum(rs) && m.expectancyR == Mean(rs)
      && m.winRate == Some(|Wins(rs)| as real / n as real)
      && m.grossProfitR == Sum(Wins(rs)) && m.grossLossR == Abs(Sum(Losses(rs)))
      && m.profitFactor == (if m.grossLossR > 0.0 then Some(m.grossProfitR / m.grossLossR) else None)
      && m.avgWinR == Mean(Wins(rs)) && m.avgLossR == Mean(Losses(rs))
      && IsMaxDrop(Curve(rs), m.maxDrawdownR)
      && m.sharpe == Ratio(Sum(rs) / n as real, Deviation(sqrt, rs, Sum(rs) / n as real, n), n)
      && m.sortino == Ratio(Sum(rs) / n as real, Deviation(sqrt, Downside(rs), 0.0, n), n)
      && m.feeR == Total(FeeR, trades) && m.slippageR == Total(SlippageR, trades)
      && m.longR == Mean(Results(OfSide(trades, LONG))) && m.shortR == Mean(Results(OfSide(trades, SHORT)))
      && m.consistency == Consistency(trades)
  }

  /** compute_backtest_metrics. */
  method ComputeBacktestMetrics(sqrt: real -> real, trades: seq<Trade>) returns (m: Metrics)
    ensures IsMetrics(sqrt, trades, m)
  {
    if trades == [] {
      return NO_TRADES;
    }
    var rs, n := Results(trades), |trades|;
    var wins, losses := Wins(rs), Losses(rs);
    var grossProfit, grossLoss := Sum(wins), Abs(Sum(losses));
    var mean := Sum(rs) / n as real;
    var maxDd := MaxDrawdownR(rs);
    SameLength(trades);
    m := Metrics(n, Some(|wins| as real / n as real), Some(mean),
                 if grossLoss > 0.0 then Some(grossProfit / grossLoss) else None,
                 Mean(wins), Mean(losses), grossProfit, grossLoss, Sum(rs), maxDd,
                 Ratio(mean, Deviation(sqrt, rs, mean, n), n), Ratio(mean, Deviation(sqrt, Downside(rs), 0.0, n), n),
                 Total(FeeR, trades), Total(SlippageR, trades),
                 Mean(Results(OfSide(trades, LONG))), Mean(Results(OfSide(trades, SHORT))), Consistency(trades));
  }

  // ---- what the figures mean together ----

  lemma {:induction false} SameLength(trades: seq<Trade>)
    ensures |Results(trades)| == |trades| && Sum(Results(trades)) == Total(NetR, trades)
  {
    if trades != [] { SameLength(trades[..|trades| - 1]); }
  }

  predicate NoLoss(rs: seq<real>) {
    forall i :: 0 <= i < |rs| ==> rs[i] >= 0.0
  }

  lemma SumSnoc(xs: seq<real>, x: real)
    ensures Sum(xs + [x]) == Sum(xs) + x
  {
    assert (xs + [x])[..|xs|] == xs;
  }

  lemma {:induction false} WinsAndLosses(rs: seq<real>)
    ensures Sum(Wins(rs)) >= 0.0 && Sum(Losses(rs)) <= 0.0 && Sum(Wins(rs)) + Sum(Losses(rs)) == Sum(rs)
    ensures |Wins(rs)| + |Losses(rs)| <= |rs|
    ensures Sum(Losses(rs)) == 0.0 <==> NoLoss(rs)
  {
    if rs != [] {
      var init, last := rs[..|rs| - 1], rs[|rs| - 1];
      WinsAndLosses(init);
      SumSnoc(Wins(init), last);
      SumSnoc(Losses(init), last);
      assert rs == init + [last];
    }
  }

  /** Profit and loss are what the net splits into, and so are the two sides; the win rate is a rate. */
  lemma FiguresAddUp(sqrt: real -> real, trades: seq<Trade>, m: Metrics)
    requires IsMetrics(sqrt, trades, m)
    ensures m.grossProfitR >= 0.0 && m.grossLossR >= 0.0 && m.grossProfitR - m.grossLossR == m.totalNetR
    ensures m.totalNetR == Sum(Results(OfSide(trades, LONG))) + Sum(Results(OfSide(trades, SHORT)))
    ensures m.winRate.Some? ==> 0.0 <= m.winRate.value <= 1.0
  {
    SameLength(trades);
    WinsAndLosses(Results(trades));
    SidesAddUp(trades);
    if trades != [] {
      Share(|Wins(Results(trades))|, |trades|);
    }
  }

  lemma SidesAddUp(trades: seq<Trade>)
    ensures Sum(Results(trades)) == Sum(Results(OfSide(trades, LONG))) + Sum(Results(OfSide(trades, SHORT)))
  {
    SameLength(trades);
    SameLength(OfSide(trades, LONG));
    SameLength(OfSide(trades, SHORT));
    forall i | 0 <= i < |trades| ensures SideOf(trades[i]) in [LONG, SHORT] {
      assert SideOf(trades[i]) == LONG || SideOf(trades[i]) == SHORT;
    }
    GroupTotalsAddUp(SideOf, NetR, trades, [LONG, SHORT]);
    assert [LONG, SHORT][..1] == [LONG] && [LONG][..0] == [];
    assert TotalOfGroups(SideOf, NetR, trades, [LONG]) == Total(NetR, OfSide(trades, LONG));
  }

  lemma ShareAboveOne(profit: real, loss: real)
    requires loss > 0.0
    ensures profit / loss > 1.0 <==> profit - loss > 0.0
  {
  }

  lemma MeanSign(total: real, n: nat)
    requires n > 0
    ensures total / n as real > 0.0 <==> total > 0.0
  {
  }

  /** Where it is defined, the profit factor exceeds 1 exactly when the expectancy is positive. */
  lemma ProfitFactorJudgesTheEdge(sqrt: real -> real, trades: seq<Trade>, m: Metrics)
    requires IsMetrics(sqrt, trades, m) && m.profitFactor.Some?
    ensures m.expectancyR.Some? && (m.profitFactor.value > 1.0 <==> m.expectancyR.value > 0.0)
  {
    SameLength(trades);
    FiguresAddUp(sqrt, trades, m);
    ShareAboveOne(m.grossProfitR, m.grossLossR);
    MeanSign(m.totalNetR, |trades|);
  }

  /** The total of these results over their number, if there are any. */
  predicate IsAverage(average: Option<real>, xs: seq<real>) {
    if xs == [] then average.None? else average.Some? && average.value * |xs| as real == Sum(xs)
  }

  lemma MeanIsAverage(xs: seq<real>)
    ensures IsAverage(Mean(xs), xs)
  {
    if xs != [] { DivideBack(Sum(xs), |xs| as real); }
  }

  /** The wins are the positive results and the losses the negative ones; the rest is zero. */
  lemma {:induction false} WinsAre(rs: seq<real>, x: real)
    ensures multiset(Wins(rs))[x] == (if x > 0.0 then multiset(rs)[x] else 0)
    ensures multiset(Losses(rs))[x] == (if x < 0.0 then multiset(rs)[x] else 0)
  {
    if rs != [] {
      WinsAre(rs[..|rs| - 1], x);
      assert rs == rs[..|rs| - 1] + [rs[|rs| - 1]];
    }
  }

  /** Every average of a ledger is one: of all results, of the wins, of the losses, and of either side. */
  lemma AveragesAre(sqrt: real -> real, trades: seq<Trade>, m: Metrics)
    requires IsMetrics(sqrt, trades, m)
    ensures var rs := Results(trades);
            && IsAverage(m.expectancyR, rs) && IsAverage(m.avgWinR, Wins(rs)) && IsAverage(m.avgLossR, Losses(rs))
            && IsAverage(m.longR, Results(OfSide(trades, LONG))) && IsAverage(m.shortR, Results(OfSide(trades, SHORT)))
  {
    var rs := Results(trades);
    SameLength(trades);
    MeanIsAverage(rs);
    MeanIsAverage(Wins(rs));
    MeanIsAverage(Losses(rs));
    MeanIsAverage(Results(OfSide(trades, LONG)));
    MeanIsAverage(Results(OfSide(trades, SHORT)));
  }

  /** The win rate is the share of the wins, and the profit factor what the profit is to the loss. */
  lemma RatesAre(sqrt: real -> real, trades: seq<Trade>, m: Metrics)
    requires IsMetrics(sqrt, trades, m) && trades != []
    ensures m.winRate.Some? && IsShare(m.winRate.value, |Wins(Results(trades))| as real, |trades| as real)
    ensures m.profitFactor.Some? ==> IsShare(m.profitFactor.value, m.grossProfitR, m.grossLossR)
  {
    QuotientIsShare(|Wins(Results(trades))| as real, |trades| as real);
    if m.grossLossR > 0.0 { QuotientIsShare(m.grossProfitR, m.grossLossR); }
  }

  /** d is the root mean square distance of the values from a centre, over n of them. */
  predicate IsDeviation(d: real, xs: seq<real>, centre: real, n: nat) {
    d >= 0.0 && d * d * n as real == SquaredDistances(xs, centre)
  }

  lemma DeviationIs(sqrt: real -> real, xs: seq<real>, centre: real, n: nat)
    requires IsSqrt(sqrt) && n > 0
    ensures IsDeviation(Deviation(sqrt, xs, centre, n), xs, centre, n)
  {
    SpreadSign(xs, centre);
    QuotientSign(SquaredDistances(xs, centre), n as real);
    DivideBack(SquaredDistances(xs, centre), n as real);
  }

  /** The Sharpe and Sortino figures are what the mean is to their deviations: that of all results from their mean,
      and that of the losing ones from zero. */
  lemma RatiosAre(sqrt: real -> real, trades: seq<Trade>, m: Metrics) returns (mean: real, sd: real, down: real)
    requires IsSqrt(sqrt) && IsMetrics(sqrt, trades, m) && trades != []
    ensures var rs := Results(trades);
            m.expectancyR == Some(mean) && IsDeviation(sd, rs, mean, |trades|) && IsDeviation(down, Downside(rs), 0.0, |trades|)
    ensures m.sharpe.Some? ==> IsShare(m.sharpe.value, mean, sd)
    ensures m.sortino.Some? ==> IsShare(m.sortino.value, mean, down)
  {
    var rs, n := Results(trades), |trades|;
    SameLength(trades);
    mean := Sum(rs) / n as real;
    sd, down := Deviation(sqrt, rs, mean, n), Deviation(sqrt, Downside(rs), 0.0, n);
    DeviationIs(sqrt, rs, mean, n);
    DeviationIs(sqrt, Downside(rs), 0.0, n);
    if sd != 0.0 { QuotientIsShare(mean, sd); }
    if down != 0.0 { QuotientIsShare(mean, down); }
  }

  /** The cost figures are the totals of the costs: with the net they make up the gross edge of a settled ledger. */
  lemma CostsAddUp(sqrt: real -> real, c: Costs, trades: seq<Trade>, m: Metrics)
    requires IsMetrics(sqrt, trades, m) && forall i :: 0 <= i < |trades| ==> SettledBy(c, trades[i])
    ensures m.totalNetR + m.feeR + m.slippageR == Total(GrossR, trades)
    ensures m.feeR == Total((t: Trade) => t.settlement.feeR, trades)
  {
    SameLength(trades);
    NetPlusCostsIsGrossInTotal(c, trades);
    SameTotal(FeeR, (t: Trade) => t.settlement.feeR, trades);
  }

  lemma {:induction false} SameTotal(a: Trade -> real, b: Trade -> real, trades: seq<Trade>)
    requires forall t :: a(t) == b(t)
    ensures Total(a, trades) == Total(b, trades)
  {
    if trades != [] { SameTotal(a, b, trades[..|trades| - 1]); }
  }

  /** Of an empty ledger there are no ratios, and every total is zero. */
  lemma NoTradesIs(sqrt: real -> real, m: Metrics)
    requires IsMetrics(sqrt, [], m)
    ensures m.count == 0 && m.winRate.None? && m.expectancyR.None? && m.profitFactor.None? && m.avgWinR.None? && m.avgLossR.None?
    ensures m.grossProfitR == m.grossLossR == m.totalNetR == m.maxDrawdownR == m.feeR == m.slippageR == 0.0
    ensures m.sharpe.None? && m.sortino.None? && m.longR.None? && m.shortR.None? && m.consistency.None?
  {
  }

  // ---- which ratios are undefined ----

  lemma {:induction false} DownsideAt(rs: seq<real>)
    ensures |Downside(rs)| == |rs| && forall i :: 0 <= i < |rs| ==> Downside(rs)[i] == Min(rs[i], 0.0)
  {
    if rs != [] { DownsideAt(rs[..|rs| - 1]); }
  }

  lemma DeviationSign(sqrt: real -> real, xs: seq<real>, centre: real, n: nat)
    requires IsSqrt(sqrt) && n > 0
    ensures Deviation(sqrt, xs, centre, n) == 0.0 <==> AllAre(xs, centre)
  {
    SpreadSign(xs, centre);
    QuotientSign(SquaredDistances(xs, centre), n as real);
    RootSign(SquaredDistances(xs, centre) / n as real, sqrt);
  }

  lemma AllAreTheMean(xs: seq<real>)
    requires xs != []
    ensures AllAre(xs, Sum(xs) / |xs| as real) <==> AllAre(xs, xs[0])
  {
    if AllAre(xs, xs[0]) {
      MeanOfEqual(xs, xs[0]);
    }
  }

  lemma SharpeUndefined(sqrt: real -> real, rs: seq<real>)
    requires IsSqrt(sqrt) && rs != []
    ensures var mean := Sum(rs) / |rs| as real;
            Ratio(mean, Deviation(sqrt, rs, mean, |rs|), |rs|).None? <==> |rs| < 2 || AllAre(rs, rs[0])
  {
    DeviationSign(sqrt, rs, Sum(rs) / |rs| as real, |rs|);
    AllAreTheMean(rs);
  }

  lemma SortinoUndefined(sqrt: real -> real, rs: seq<real>)
    requires IsSqrt(sqrt) && rs != []
    ensures var mean := Sum(rs) / |rs| as real;
            Ratio(mean, Deviation(sqrt, Downside(rs), 0.0, |rs|), |rs|).None? <==> |rs| < 2 || NoLoss(rs)
  {
    DeviationSign(sqrt, Downside(rs), 0.0, |rs|);
    DownsideAt(rs);
    assert NoLoss(rs) ==> AllAre(Downside(rs), 0.0);
    if i :| 0 <= i < |rs| && rs[i] < 0.0 {
      assert Downside(rs)[i] != 0.0;
    }
  }

  /** The ratio metrics are undefined on exactly the samples that do not define them: no trade, no losing
      trade, fewer than two trades, or no spread to divide by. */
  lemma UndefinedExactly(sqrt: real -> real, trades: seq<Trade>, m: Metrics)
    requires IsSqrt(sqrt) && IsMetrics(sqrt, trades, m)
    ensures var rs := Results(trades);
            && (m.winRate.None? <==> rs == []) && (m.expectancyR.None? <==> rs == [])
            && (m.profitFactor.None? <==> NoLoss(rs))
            && (m.sharpe.None? <==> |rs| < 2 || AllAre(rs, rs[0]))
            && (m.sortino.None? <==> |rs| < 2 || NoLoss(rs))
  {
    var rs := Results(trades);
    SameLength(trades);
    WinsAndLosses(rs);
    if trades != [] {
      SharpeUndefined(sqrt, rs);
      SortinoUndefined(sqrt, rs);
    }
  }

  // ---- drawdown against losses ----

  lemma {:induction false} DropWithinLosses(rs: seq<real>, i: nat, j: nat)
    requires i <= j <= |rs|
    ensures Curve(rs)[i] - Curve(rs)[j] <= -Sum(Losses(rs))
  {
    WinsAndLosses(rs);
    if rs != [] {
      var init, last := rs[..|rs| - 1], rs[|rs| - 1];
      SumSnoc(Losses(init), last);
      WinsAndLosses(init);
      if j < |rs| {
        DropWithinLosses(init, i, j);
      } else if i < j {
        DropWithinLosses(init, i, j - 1);
      }
    }
  }

  /** The maximum drawdown is at least every single loss and at most all losses together. */
  lemma DrawdownWithinLosses(sqrt: real -> real, trades: seq<Trade>, m: Metrics)
    requires IsMetrics(sqrt, trades, m)
    ensures forall i :: 0 <= i < |trades| ==> -NetR(trades[i]) <= m.maxDrawdownR
    ensures 0.0 <= m.maxDrawdownR <= m.grossLossR
  {
    var rs := Results(trades);
    SameLength(trades);
    WinsAndLosses(rs);
    if trades != [] {
      var i, j :| 0 <= i <= j < |Curve(rs)| && Curve(rs)[i] - Curve(rs)[j] == m.maxDrawdownR;
      DropWithinLosses(rs, i, j);
      forall k | 0 <= k < |trades| ensures -NetR(trades[k]) <= m.maxDrawdownR {
        ResultAt(trades, k);
        CurveStep(rs, k);
        assert Curve(rs)[k] - Curve(rs)[k + 1] <= m.maxDrawdownR;
      }
      assert Curve(rs)[0] - Curve(rs)[0] <= m.maxDrawdownR;
    }
  }

  lemma {:induction false} ResultAt(trades: seq<Trade>, k: nat)
    requires k < |trades|
    ensures |Results(trades)| == |trades| && Results(trades)[k] == NetR(trades[k])
  {
    SameLength(trades);
    if k < |trades| - 1 {
      SameLength(trades[..|trades| - 1]);
      ResultAt(trades[..|trades| - 1], k);
    }
  }

  // ---- per regime ----

  function RegimeOf(t: Trade): string {
    if t.pos.regime.Some? then t.pos.regime.value else "UNKNOWN"
  }

  method MetricsOfGroups(sqrt: real -> real, groups: map<string, seq<Trade>>) returns (byRegime: map<string, Metrics>)
    ensures byRegime.Keys == groups.Keys
    ensures forall r :: r in byRegime ==> IsMetrics(sqrt, groups[r], byRegime[r])
  {
    byRegime := map[];
    var left := groups.Keys;
    while left != {}
      invariant left <= groups.Keys && byRegime.Keys == groups.Keys - left
      invariant forall r :: r in byRegime ==> IsMetrics(sqrt, groups[r], byRegime[r])
      decreases left
    {
      var regime :| regime in left;
      var m := ComputeBacktestMetrics(sqrt, groups[regime]);
      byRegime := byRegime[regime := m];
      left := left - {regime};
    }
  }

  lemma ExpectancyTells(sqrt: real -> real, trades: seq<Trade>, m: Metrics)
    requires IsMetrics(sqrt, trades, m)
    ensures m.expectancyR.Some? && m.expectancyR.value > 0.0 <==> Profits(Results(trades))
  {
    SameLength(trades);
  }

  /** regime_breakdown: the metrics of exactly the trades of each entry regime, and the profitable regimes. */
  method RegimeBreakdown(sqrt: real -> real, trades: seq<Trade>)
    returns (byRegime: map<string, Metrics>, profitable: set<string>)
    ensures forall r :: r in byRegime <==> HasKey(RegimeOf, trades, r)
    ensures forall r :: r in byRegime ==> IsMetrics(sqrt, Select(RegimeOf, trades, r), byRegime[r])
    ensures forall r :: r in profitable <==> r in byRegime && Profits(Results(Select(RegimeOf, trades, r)))
  {
    var groups := GroupBy(RegimeOf, trades);
    byRegime := MetricsOfGroups(sqrt, groups);
    profitable := set r | r in byRegime && byRegime[r].expectancyR.Some? && byRegime[r].expectancyR.value > 0.0;
    forall r | r in byRegime
      ensures IsMetrics(sqrt, Select(RegimeOf, trades, r), byRegime[r])
      ensures r in profitable <==> Profits(Results(Select(RegimeOf, trades, r)))
    {
      ExpectancyTells(sqrt, groups[r], byRegime[r]);
    }
  }

  lemma {:induction false} SameGroups(trades: seq<Trade>, r: string)
    requires forall i :: 0 <= i < |trades| ==> trades[i].pos.regime.Some?
    ensures Select(RegimeOf, trades, r) == Select(EntryRegime, trades, Some(r))
  {
    if trades != [] { SameGroups(trades[..|trades| - 1], r); }
  }

  lemma RegimeKeyed(trades: seq<Trade>, r: string)
    requires forall i :: 0 <= i < |trades| ==> trades[i].pos.regime.Some?
    ensures HasKey(RegimeOf, trades, r) <==> r in Regimes(trades)
  {
    if HasKey(RegimeOf, trades, r) {
      var i :| 0 <= i < |trades| && RegimeOf(trades[i]) == r;
      assert trades[i].pos.regime == Some(r);
    }
  }

  lemma ProfitableKeyed(trades: seq<Trade>, r: string)
    requires forall i :: 0 <= i < |trades| ==> trades[i].pos.regime.Some?
    ensures r in ProfitableRegimes(trades) <==> r in Regimes(trades) && Profits(Results(Select(RegimeOf, trades, r)))
  {
    SameGroups(trades, r);
  }

  lemma SameSets(a: set<string>, b: set<string>)
    requires forall r :: r in a <==> r in b
    ensures a == b
  {
  }

  lemma BreakdownSets(trades: seq<Trade>, regimes: set<string>, profitable: set<string>)
    requires forall i :: 0 <= i < |trades| ==> trades[i].pos.regime.Some?
    requires forall r :: r in regimes <==> HasKey(RegimeOf, trades, r)
    requires forall r :: r in profitable <==> r in regimes && Profits(Results(Select(RegimeOf, trades, r)))
    ensures regimes == Regimes(trades) && profitable == ProfitableRegimes(trades)
  {
    forall r ensures r in regimes <==> r in Regimes(trades) {
      RegimeKeyed(trades, r);
    }
    SameSets(regimes, Regimes(trades));
    forall r ensures r in profitable <==> r in ProfitableRegimes(trades) {
      ProfitableKeyed(trades, r);
    }
    SameSets(profitable, ProfitableRegimes(trades));
  }

  lemma BreakdownShare(trades: seq<Trade>)
    requires trades != [] && trades[0].pos.regime.Some?
    ensures |Regimes(trades)| > 0
    ensures Consistency(trades) == Some(|ProfitableRegimes(trades)| as real / |Regimes(trades)| as real)
  {
    assert trades[0].pos.regime.value in Regimes(trades);
  }

  /** The two modules agree: when every trade records its regime, the consistency metric
      of the ledger is the share of profitable regimes in the breakdown. */
  lemma ConsistencyIsBreakdown(sqrt: real -> real, trades: seq<Trade>, m: Metrics, regimes: set<string>, profitable: set<string>)
    requires IsMetrics(sqrt, trades, m) && trades != []
    requires forall i :: 0 <= i < |trades| ==> trades[i].pos.regime.Some?
    requires forall r :: r in regimes <==> HasKey(RegimeOf, trades, r)
    requires forall r :: r in profitable <==> r in regimes && Profits(Results(Select(RegimeOf, trades, r)))
    ensures |regimes| > 0 && m.consistency == Some(|profitable| as real / |regimes| as real)
  {
    BreakdownSets(trades, regimes, profitable);
    BreakdownShare(trades);
  }

  /** The per-regime totals and counts add back to those of the whole ledger. */
  lemma RegimesAddUp(trades: seq<Trade>, regimes: seq<string>)
    requires NoDuplicates(regimes)
    requires forall i :: 0 <= i < |trades| ==> RegimeOf(trades[i]) in regimes
    ensures TotalOfGroups(RegimeOf, NetR, trades, regimes) == Total(NetR, trades)
    ensures TotalOfGroups(RegimeOf, FeeR, trades, regimes) == Total(FeeR, trades)
    ensures TotalOfGroups(RegimeOf, SlippageR, trades, regimes) == Total(SlippageR, trades)
    ensures TotalOfGroups(RegimeOf, One, trades, regimes) == |trades| as real
  {
    GroupTotalsAddUp(RegimeOf, NetR, trades, regimes);
    GroupTotalsAddUp(RegimeOf, FeeR, trades, regimes);
    GroupTotalsAddUp(RegimeOf, SlippageR, trades, regimes);
    GroupTotalsAddUp(RegimeOf, One, trades, regimes);
    TotalOfOnes(trades);
  }
}
