/** One-pass drawdowns (backtesting/performance_metrics.py, risk/risk_guard.py). */
module Drawdown {
  import opened Common

  /** The equity curve: 0, then the running sum after each result. */
  function Curve(rs: seq<real>): (curve: seq<real>)
    ensures |curve| == |rs| + 1 && curve[0] == 0.0
  {
    if rs == [] then [0.0]
    else
      var before := Curve(rs[..|rs| - 1]);
      before + [before[|rs| - 1] + rs[|rs| - 1]]
  }

  lemma {:induction false} CurveStep(rs: seq<real>, n: nat)
    requires n < |rs|
    ensures Curve(rs)[n + 1] == Curve(rs)[n] + rs[n]
  {
    if n + 1 < |rs| {
      CurveStep(rs[..|rs| - 1], n);
    }
  }

  /** d is the largest drop from any point of a curve to a later one. */
  ghost predicate IsMaxDrop(curve: seq<real>, d: real) {
    && (forall i, j :: 0 <= i <= j < |curve| ==> curve[i] - curve[j] <= d)
    && exists i, j :: 0 <= i <= j < |curve| && curve[i] - curve[j] == d
  }

  predicate IsPeak(curve: seq<real>, peak: real) {
    (forall i :: 0 <= i < |curve| ==> curve[i] <= peak) && peak in curve
  }

  lemma MaxDropIsUnique(curve: seq<real>, d: real, e: real)
    requires IsMaxDrop(curve, d) && IsMaxDrop(curve, e)
    ensures d == e
  {
  }

  /** The running peak of a curve up to its point n, as both loops keep it. */
  function PeakUpTo(curve: seq<real>, n: nat): real
    requires n < |curve|
  {
    if n == 0 then curve[0] else Max(PeakUpTo(curve, n - 1), curve[n])
  }

  /** The running maximum of the drops from the running peak. */
  function DropUpTo(curve: seq<real>, n: nat): real
    requires n < |curve|
  {
    if n == 0 then 0.0 else Max(DropUpTo(curve, n - 1), PeakUpTo(curve, n) - curve[n])
  }

  lemma PeakOne(c: seq<real>, peak: real, x: real, peak': real)
    requires IsPeak(c, peak) && peak' == Max(peak, x)
    ensures IsPeak(c + [x], peak')
  {
  }

  /** One more point: a new drop can only end there, and then it starts at the peak. */
  lemma DropOne(c: seq<real>, peak: real, drop: real, x: real, drop': real)
    requires IsMaxDrop(c, drop) && IsPeak(c + [x], peak) && drop' == Max(drop, peak - x)
    ensures IsMaxDrop(c + [x], drop')
  {
    var c' := c + [x];
    forall k, l | 0 <= k <= l < |c'| ensures c'[k] - c'[l] <= drop' {
      if l < |c| { assert c[k] - c[l] <= drop; }
    }
    if drop' == drop {
      var i, j :| 0 <= i <= j < |c| && c[i] - c[j] == drop;
      assert c'[i] - c'[j] == drop';
    } else {
      var top :| 0 <= top < |c'| && c'[top] == peak;
      assert c'[top] - c'[|c|] == drop';
    }
  }

  lemma PrefixSnoc(curve: seq<real>, n: nat)
    requires n < |curve|
    ensures curve[..n] + [curve[n]] == curve[..n + 1]
  {
  }

  /** The linear recurrence reaches the quadratic maximum over all i <= j. */
  lemma {:induction false} RunningDropIsMax(curve: seq<real>, n: nat) returns (c: seq<real>)
    requires n < |curve|
    ensures c == curve[..n + 1] && IsPeak(c, PeakUpTo(curve, n)) && IsMaxDrop(c, DropUpTo(curve, n))
  {
    if n == 0 {
      c := [curve[0]];
      assert c[0] - c[0] == 0.0;
    } else {
      var before := RunningDropIsMax(curve, n - 1);
      PeakOne(before, PeakUpTo(curve, n - 1), curve[n], PeakUpTo(curve, n));
      DropOne(before, PeakUpTo(curve, n), DropUpTo(curve, n - 1), curve[n], DropUpTo(curve, n));
      c := before + [curve[n]];
      PrefixSnoc(curve, n);
    }
  }

  lemma WholeCurve(curve: seq<real>, peak: real, drop: real)
    requires curve != [] && peak == PeakUpTo(curve, |curve| - 1) && drop == DropUpTo(curve, |curve| - 1)
    ensures IsMaxDrop(curve, drop) && IsPeak(curve, peak)
  {
    var c := RunningDropIsMax(curve, |curve| - 1);
    assert c == curve;
  }

  /** How far the end of a curve lies below its highest point, as a number that is not positive. */
  ghost predicate IsDepth(curve: seq<real>, depth: real)
    requires curve != []
  {
    && (forall i :: 0 <= i < |curve| ==> curve[|curve| - 1] - curve[i] >= depth)
    && exists i :: 0 <= i < |curve| && curve[|curve| - 1] - curve[i] == depth
  }

  predicate AtPeak(curve: seq<real>)
    requires curve != []
  {
    forall i :: 0 <= i < |curve| ==> curve[i] <= curve[|curve| - 1]
  }

  lemma DepthBelowPeak(curve: seq<real>, peak: real, drop: real, depth: real)
    requires curve != [] && IsPeak(curve, peak) && IsMaxDrop(curve, drop) && depth == curve[|curve| - 1] - peak
    ensures IsDepth(curve, depth) && -drop <= depth <= 0.0
    ensures depth == 0.0 <==> AtPeak(curve)
  {
    var top :| 0 <= top < |curve| && curve[top] == peak;
    assert curve[|curve| - 1] - curve[top] == depth;
  }

  lemma GuardGives(curve: seq<real>, peak: real, drop: real, depth: real)
    requires curve != [] && peak == PeakUpTo(curve, |curve| - 1) && drop == DropUpTo(curve, |curve| - 1)
    requires depth == curve[|curve| - 1] - peak
    ensures IsMaxDrop(curve, drop) && IsDepth(curve, depth) && -drop <= depth <= 0.0
    ensures depth == 0.0 <==> AtPeak(curve)
  {
    WholeCurve(curve, peak, drop);
    DepthBelowPeak(curve, peak, drop, depth);
  }

  /** _max_drawdown_r: one pass, and it is the quadratic maximum over all i <= j. */
  method MaxDrawdownR(rs: seq<real>) returns (maxDd: real)
    ensures IsMaxDrop(Curve(rs), maxDd) && maxDd >= 0.0
  {
    var peak, cum := 0.0, 0.0;
    maxDd := 0.0;
    for n := 0 to |rs|
      invariant cum == Curve(rs)[n] && peak == PeakUpTo(Curve(rs), n) && maxDd == DropUpTo(Curve(rs), n) && maxDd >= 0.0
    {
      CurveStep(rs, n);
      cum := cum + rs[n];
      peak := Max(peak, cum);
      maxDd := Max(maxDd, peak - cum);
    }
    WholeCurve(Curve(rs), peak, maxDd);
  }

  /** drawdowns_r: the guard's own loop, which counts drops downwards. */
  method DrawdownsR(rs: seq<real>) returns (maxDd: real, current: real)
    ensures IsMaxDrop(Curve(rs), -maxDd)
    ensures maxDd <= current <= 0.0
    ensures IsDepth(Curve(rs), current)
    ensures current == 0.0 <==> AtPeak(Curve(rs))
  {
    var equity, peak := 0.0, 0.0;
    maxDd := 0.0;
    for n := 0 to |rs|
      invariant equity == Curve(rs)[n] && peak == PeakUpTo(Curve(rs), n) && maxDd == -DropUpTo(Curve(rs), n)
    {
      CurveStep(rs, n);
      equity := equity + rs[n];
      peak := Max(peak, equity);
      maxDd := Min(maxDd, equity - peak);
    }
    current := equity - peak;
    GuardGives(Curve(rs), peak, -maxDd, current);
  }

  /** The two modules agree on every series: one is the exact negation of the other. */
  method BothDrawdowns(rs: seq<real>) returns (backtest: real, guard: real)
    ensures guard == -backtest && IsMaxDrop(Curve(rs), backtest)
  {
    backtest := MaxDrawdownR(rs);
    var current;
    guard, current := DrawdownsR(rs);
    MaxDropIsUnique(Curve(rs), backtest, -guard);
  }

  /** _consecutive_losses: the length of the losing run the history ends with. */
  method ConsecutiveLosses(rs: seq<real>) returns (count: nat)
    ensures count <= |rs| && (forall i :: |rs| - count <= i < |rs| ==> rs[i] < 0.0)
    ensures count < |rs| ==> rs[|rs| - count - 1] >= 0.0
  {
    count := 0;
    while count < |rs|
      invariant count <= |rs| && forall i :: |rs| - count <= i < |rs| ==> rs[i] < 0.0
    {
      if rs[|rs| - 1 - count] >= 0.0 {
        break;
      }
      count := count + 1;
    }
  }

  datatype Problem = DailyLoss | WeeklyLoss | LosingStreak | DrawdownProxy

  datatype RiskLimits = RiskLimits(dailyMaxLossR: real, weeklyMaxLossR: real, maxConsecutiveLosses: int,
                                   maxDrawdownPct: real, riskPerTrade: real)

  function DrawdownLimitR(limits: RiskLimits): real {
    Abs(limits.maxDrawdownPct) / 100.0 / (if limits.riskPerTrade > 0.0 then limits.riskPerTrade else 0.01)
  }

  /** The limit is the equity fraction in units of the risk per trade, of one percent where none is set. */
  lemma LimitIs(limits: RiskLimits)
    ensures limits.riskPerTrade > 0.0 ==> DrawdownLimitR(limits) * limits.riskPerTrade == Abs(limits.maxDrawdownPct) / 100.0
    ensures limits.riskPerTrade <= 0.0 ==> DrawdownLimitR(limits) * 0.01 == Abs(limits.maxDrawdownPct) / 100.0
  {
    var fraction := Abs(limits.maxDrawdownPct) / 100.0;
    if limits.riskPerTrade > 0.0 { DivideBack(fraction, limits.riskPerTrade); }
  }

  /** The last n results were all losses. */
  predicate EndsInLosses(rs: seq<real>, n: int) {
    n <= |rs| && forall i :: 0 <= i < |rs| && |rs| - n <= i ==> rs[i] < 0.0
  }

  /** Some point of the equity curve lies at least `limit` above its end. */
  predicate FallenBy(curve: seq<real>, limit: real)
    requires curve != []
  {
    exists i :: 0 <= i < |curve| && curve[i] - curve[|curve| - 1] >= limit
  }

  lemma FallenIsDepth(curve: seq<real>, depth: real, limit: real)
    requires curve != [] && IsDepth(curve, depth)
    ensures FallenBy(curve, limit) <==> depth <= -limit
  {
  }

  /** The breaker test of run_risk_guard. It is not latched: the drawdown breaker blocks exactly while
      equity lies the limit below its peak, however deep the history once was. */
  method RunRiskGuard(rs: seq<real>, dailyPnl: real, weeklyPnl: real, limits: RiskLimits)
    returns (allow: bool, problems: seq<Problem>)
    ensures allow <==> problems == []
    ensures DrawdownProxy in problems <==> FallenBy(Curve(rs), DrawdownLimitR(limits))
    ensures DailyLoss in problems <==> dailyPnl <= limits.dailyMaxLossR
    ensures WeeklyLoss in problems <==> weeklyPnl <= limits.weeklyMaxLossR
    ensures LosingStreak in problems <==> EndsInLosses(rs, limits.maxConsecutiveLosses)
  {
    var losses := ConsecutiveLosses(rs);
    var maxDd, current := DrawdownsR(rs);
    FallenIsDepth(Curve(rs), current, DrawdownLimitR(limits));
    problems := [];
    if dailyPnl <= limits.dailyMaxLossR {
      problems := problems + [DailyLoss];
    }
    if weeklyPnl <= limits.weeklyMaxLossR {
      problems := problems + [WeeklyLoss];
    }
    if losses >= limits.maxConsecutiveLosses {
      problems := problems + [LosingStreak];
    }
    if current <= -DrawdownLimitR(limits) {
      problems := problems + [DrawdownProxy];
    }
    allow := problems == [];
  }
}
