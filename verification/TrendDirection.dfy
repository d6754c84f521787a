/** What the trend of features/higher_timeframe.py says about the closes it is computed from. */
module TrendDirection {
  import opened Common
  import opened HigherTimeframe
  import opened Statistics

  /** a before b when closes are read upwards, b before a when they are read downwards. */
  predicate Leads(up: bool, a: real, b: real) {
    if up then a <= b else b <= a
  }

  /** Closes that never fall (up) or never rise (not up). */
  predicate Monotone(bars: seq<Bar>, up: bool) {
    forall i :: 0 < i < |bars| ==> Leads(up, bars[i - 1].close, bars[i].close)
  }

  function Alpha(span: int): real
    requires span >= 1
  {
    2.0 / (span as real + 1.0)
  }

  lemma AlphaOrder(fast: int, slow: int)
    requires 1 <= fast <= slow
    ensures 0.0 < Alpha(slow) <= Alpha(fast) <= 1.0
  {
    Quotients(fast as real + 1.0, slow as real + 1.0);
  }

  lemma Quotients(a: real, b: real)
    requires 2.0 <= a <= b
    ensures 0.0 < 2.0 / b <= 2.0 / a <= 1.0
  {
  }

  lemma ProductSign(a: real, b: real)
    requires a >= 0.0
    ensures (b >= 0.0 ==> a * b >= 0.0) && (b <= 0.0 ==> a * b <= 0.0)
  {
  }

  /** One step of both means: the one with the larger weight stays the nearer to the new close. */
  lemma OneStep(up: bool, fast: real, slow: real, close: real, af: real, aslow: real)
    requires 0.0 < aslow <= af <= 1.0 && Leads(up, slow, fast) && Leads(up, fast, close)
    ensures Leads(up, (1.0 - aslow) * slow + aslow * close, (1.0 - af) * fast + af * close)
    ensures Leads(up, (1.0 - af) * fast + af * close, close)
  {
    var slow', fast' := (1.0 - aslow) * slow + aslow * close, (1.0 - af) * fast + af * close;
    ProductSign(1.0 - af, fast - slow);
    ProductSign(af - aslow, close - slow);
    ProductSign(1.0 - af, close - fast);
    assert fast' - slow' == (1.0 - af) * (fast - slow) + (af - aslow) * (close - slow);
    assert close - fast' == (1.0 - af) * (close - fast);
  }

  /** Over closes that never turn, the slow mean lags the fast one, which lags the last close. */
  lemma {:induction false} SlowLagsFast(bars: seq<Bar>, up: bool, fast: int, slow: int)
    requires bars != [] && Monotone(bars, up) && 1 <= fast <= slow
    ensures Leads(up, Mean(bars, slow), Mean(bars, fast)) && Leads(up, Mean(bars, fast), bars[|bars| - 1].close)
  {
    if |bars| > 1 {
      var init, last := bars[..|bars| - 1], bars[|bars| - 1].close;
      SlowLagsFast(init, up, fast, slow);
      AlphaOrder(fast, slow);
      assert Leads(up, init[|init| - 1].close, last);
      OneStep(up, Mean(init, fast), Mean(init, slow), last, Alpha(fast), Alpha(slow));
    }
  }

  lemma {:induction false} MeanPositive(bars: seq<Bar>, span: int)
    requires bars != [] && span >= 1 && forall i :: 0 <= i < |bars| ==> bars[i].close > 0.0
    ensures Mean(bars, span) > 0.0
  {
    if |bars| > 1 {
      var init, last := bars[..|bars| - 1], bars[|bars| - 1].close;
      MeanPositive(init, span);
      AlphaOrder(span, span);
      WeightedPositive(Mean(init, span), last, Alpha(span));
    }
  }

  lemma WeightedPositive(a: real, b: real, alpha: real)
    requires a > 0.0 && b > 0.0 && 0.0 < alpha <= 1.0
    ensures (1.0 - alpha) * a + alpha * b > 0.0
  {
    ProductSign(1.0 - alpha, a);
  }

  lemma GapSign(fast: real, slow: real)
    requires slow > 0.0
    ensures (fast >= slow ==> (fast - slow) / slow >= 0.0) && (fast <= slow ==> (fast - slow) / slow <= 0.0)
  {
  }

  /** The trend points where the closes go: on positive closes that never fall it is never DOWN, on closes
      that never rise never UP, and it is known exactly once there are `slow` bars. */
  lemma TrendFollowsCloses(bars: seq<Bar>, spec: Spec, flatEps: real, up: bool)
    requires bars != [] && Usable(spec) && spec.fast <= spec.slow && flatEps >= 0.0
    requires Monotone(bars, up) && forall i :: 0 <= i < |bars| ==> bars[i].close > 0.0
    ensures var published := Publish(bars, spec, flatEps);
            && (published.gap.Some? <==> |bars| >= spec.slow) && (published.trend.Some? <==> published.gap.Some?)
            && published.trend != Some(if up then DOWN else UP)
            && (published.gap.Some? ==> Leads(up, 0.0, published.gap.value))
  {
    SlowLagsFast(bars, up, spec.fast, spec.slow);
    MeanPositive(bars, spec.slow);
    GapSign(Mean(bars, spec.fast), Mean(bars, spec.slow));
  }

  // ---- the columns in figures ----

  function Power(x: real, n: nat): real {
    if n == 0 then 1.0 else x * Power(x, n - 1)
  }

  /** The exponentially weighted total of the closes after the first, the newest weighing most. */
  function Weighted(bars: seq<Bar>, alpha: real): real
    requires bars != []
  {
    if |bars| == 1 then 0.0
    else (1.0 - alpha) * Weighted(bars[..|bars| - 1], alpha) + alpha * bars[|bars| - 1].close
  }

  lemma Distribute(a: real, x: real, y: real)
    ensures a * (x + y) == a * x + a * y
  {
  }

  lemma Regroup(a: real, p: real, x: real)
    ensures a * (p * x) == (a * p) * x
  {
  }

  /** The recurrence is the weighted mean of all closes: the first one weighs (1 - alpha)^(n - 1), each later one alpha
      times (1 - alpha) to the number of closes after it, with alpha (span + 1) = 2. */
  lemma {:induction false} MeanIsWeighted(bars: seq<Bar>, span: int, alpha: real)
    requires bars != [] && span >= 1 && alpha == Alpha(span)
    ensures Mean(bars, span) == Power(1.0 - alpha, |bars| - 1) * bars[0].close + Weighted(bars, alpha)
  {
    if |bars| > 1 {
      var init := bars[..|bars| - 1];
      MeanIsWeighted(init, span, alpha);
      Distribute(1.0 - alpha, Power(1.0 - alpha, |init| - 1) * bars[0].close, Weighted(init, alpha));
      Regroup(1.0 - alpha, Power(1.0 - alpha, |init| - 1), bars[0].close);
    }
  }

  lemma AlphaIs(span: int)
    requires span >= 1
    ensures Alpha(span) * (span as real + 1.0) == 2.0
  {
  }

  /** What a bar publishes, at its close: the gap of the fast to the slow mean, relative to the slow one, once both have
      their bars; and the trend, up or down beyond the flat band and flat within it. */
  lemma PublishIs(bars: seq<Bar>, spec: Spec, flatEps: real)
    requires bars != [] && Usable(spec) && flatEps >= 0.0
    ensures var p, fast, slow := Publish(bars, spec, flatEps), Mean(bars, spec.fast), Mean(bars, spec.slow);
            && p.availableAt == bars[|bars| - 1].open + spec.period
            && (p.gap.Some? <==> |bars| >= spec.fast && |bars| >= spec.slow && slow != 0.0)
            && (p.gap.Some? ==> IsShare(p.gap.value, fast - slow, slow))
            && (p.trend.Some? <==> p.gap.Some?)
            && (p.gap.Some? ==>
                  (p.trend.value == UP <==> p.gap.value > flatEps) && (p.trend.value == DOWN <==> p.gap.value < -flatEps) &&
                  (p.trend.value == FLAT <==> -flatEps <= p.gap.value <= flatEps))
  {
    var fast, slow := Mean(bars, spec.fast), Mean(bars, spec.slow);
    if slow != 0.0 {
      QuotientIsShare(fast - slow, slow);
    }
  }

  // ---- the alignment score ----

  function CountTrend(row: seq<Cell>, trend: Trend): nat {
    if row == [] then 0
    else CountTrend(row[..|row| - 1], trend) + if row[|row| - 1].trend == Some(trend) then 1 else 0
  }

  predicate AllKnown(row: seq<Cell>) {
    forall i :: 0 <= i < |row| ==> row[i].trend.Some?
  }

  lemma {:induction false} ScoreSumIs(row: seq<Cell>)
    ensures ScoreSum(row).Some? <==> AllKnown(row)
    ensures ScoreSum(row).Some? ==> ScoreSum(row).value == CountTrend(row, UP) as real - CountTrend(row, DOWN) as real
    ensures CountTrend(row, UP) + CountTrend(row, DOWN) <= |row|
  {
    if row != [] {
      var init, last := row[..|row| - 1], row[|row| - 1];
      ScoreSumIs(init);
      assert row == init + [last];
      assert AllKnown(row) <==> AllKnown(init) && last.trend.Some?;
    }
  }

  lemma AlignmentRange(row: seq<Cell>)
    requires Alignment(row).Some?
    ensures -1.0 <= Alignment(row).value <= 1.0
  {
    ScoreSumIs(row);
    WithinOne(ScoreSum(row).value, |row| as real);
  }

  lemma WithinOne(sum: real, n: real)
    requires n > 0.0 && -n <= sum <= n
    ensures -1.0 <= sum / n <= 1.0
  {
  }

  /** The alignment score is known exactly when every timeframe has a trend, and is then the number of timeframes
      that are up less the number that are down, over the number of timeframes: a mean between -1 and 1. */
  lemma AlignmentIs(row: seq<Cell>)
    ensures Alignment(row).Some? <==> row != [] && AllKnown(row)
    ensures Alignment(row).Some? ==>
              && -1.0 <= Alignment(row).value <= 1.0
              && IsShare(Alignment(row).value, CountTrend(row, UP) as real - CountTrend(row, DOWN) as real, |row| as real)
  {
    ScoreSumIs(row);
    if Alignment(row).Some? {
      QuotientIsShare(ScoreSum(row).value, |row| as real);
      AlignmentRange(row);
    }
  }
}
