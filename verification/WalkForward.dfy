/** Walk-forward evaluation over contiguous windows (backtesting/walk_forward.py). */
module WalkForward {
  import opened Common
  import opened Grouping
  import opened BacktestMetrics
  import opened Statistics
  import S = Simulator

  const MIN_BARS_PER_WINDOW := 2

  datatype Window = Window(start: int, end: int)

  /** Contiguous, non-empty windows that start at `from` and end at `to`. */
  predicate Tiles(windows: seq<Window>, from: int, to: int) {
    if windows == [] then from == to
    else
      var last := windows[|windows| - 1];
      last.start < last.end == to && Tiles(windows[..|windows| - 1], from, last.start)
  }

  /** split_windows: up to k non-empty windows tiling [0, n), as even as they can be. */
  method SplitWindows(n: int, k: int) returns (windows: seq<Window>)
    ensures n <= 0 || k <= 0 ==> windows == []
    ensures n > 0 && k > 0 ==> |windows| == if k < n then k else n
    ensures n > 0 && k > 0 ==> Tiles(windows, 0, n)
    ensures forall i, j :: 0 <= i < |windows| && 0 <= j < |windows| ==>
              windows[i].end - windows[i].start <= windows[j].end - windows[j].start + 1
  {
    windows := [];
    if n <= 0 || k <= 0 {
      return;
    }
    var count := if k < n then k else n;
    var base, rem := n / count, n % count;
    BaseIsPositive(n, count);
    var start := 0;
    for w := 0 to count
      invariant |windows| == w
      invariant start == w * base + if w < rem then w else rem
      invariant Tiles(windows, 0, start)
      invariant forall i :: 0 <= i < w ==> base <= windows[i].end - windows[i].start <= base + 1
    {
      var size := base + if w < rem then 1 else 0;
      assert (windows + [Window(start, start + size)])[..w] == windows;
      assert (w + 1) * base == w * base + base;
      windows := windows + [Window(start, start + size)];
      start := start + size;
    }
  }

  lemma BaseIsPositive(n: int, count: int)
    requires 0 < count <= n
    ensures n / count >= 1 && count * (n / count) + n % count == n
  {
  }

  predicate Holds(w: Window, bar: int) {
    w.start <= bar < w.end
  }

  lemma {:induction false} TilesWithin(windows: seq<Window>, from: int, to: int)
    requires Tiles(windows, from, to)
    ensures from <= to
    ensures forall i :: 0 <= i < |windows| ==> from <= windows[i].start < windows[i].end <= to
  {
    if windows != [] {
      TilesWithin(windows[..|windows| - 1], from, windows[|windows| - 1].start);
    }
  }

  /** Tiling windows hold every bar exactly once. */
  lemma {:induction false} EveryBarOnce(windows: seq<Window>, from: int, to: int, bar: int) returns (i: nat)
    requires Tiles(windows, from, to) && from <= bar < to
    ensures i < |windows| && Holds(windows[i], bar)
    ensures forall j :: 0 <= j < |windows| && Holds(windows[j], bar) ==> j == i
  {
    var init, last := windows[..|windows| - 1], windows[|windows| - 1];
    TilesWithin(init, from, last.start);
    if bar >= last.start {
      i := |windows| - 1;
    } else {
      i := EveryBarOnce(init, from, last.start, bar);
      forall j | 0 <= j < |windows| && Holds(windows[j], bar) ensures j == i {
        assert j < |init| ==> init[j] == windows[j];
      }
    }
  }

  // ---- temporal stability ----

  /** The coefficient of variation: standard deviation over mean. */
  function Dispersion(xs: seq<real>, mean: real, sqrt: real -> real): real
    requires xs != [] && mean > 0.0
  {
    sqrt(SquaredDistances(xs, mean) / |xs| as real) / Abs(mean)
  }

  /** _temporal_stability. */
  function TemporalStability(expectancies: seq<real>, sqrt: real -> real): Option<real>
    requires IsSqrt(sqrt)
  {
    if |expectancies| < 2 then None
    else
      var mean := Sum(expectancies) / |expectancies| as real;
      if mean <= 0.0 then Some(0.0)
      else
        DispersionSign(expectancies, mean, sqrt);
        Some(1.0 / (1.0 + Dispersion(expectancies, mean, sqrt)))
  }

  lemma DispersionSign(xs: seq<real>, mean: real, sqrt: real -> real)
    requires IsSqrt(sqrt) && xs != [] && mean > 0.0
    ensures if AllAre(xs, mean) then Dispersion(xs, mean, sqrt) == 0.0 else Dispersion(xs, mean, sqrt) > 0.0
  {
    var variance := SquaredDistances(xs, mean) / |xs| as real;
    SpreadSign(xs, mean);
    QuotientSign(SquaredDistances(xs, mean), |xs| as real);
    RootSign(variance, sqrt);
    QuotientSign(sqrt(variance), Abs(mean));
  }

  lemma Reciprocal(cv: real)
    requires cv >= 0.0
    ensures 0.0 < 1.0 / (1.0 + cv) <= 1.0
    ensures 1.0 / (1.0 + cv) == 1.0 <==> cv == 0.0
  {
  }

  /** Stability lies in [0, 1]: 0 exactly when the mean edge is not positive, 1 exactly when it is
      positive and every window has the same one. */
  lemma StabilityRange(expectancies: seq<real>, sqrt: real -> real)
    requires IsSqrt(sqrt) && |expectancies| >= 2
    ensures var stability := TemporalStability(expectancies, sqrt);
            var mean := Sum(expectancies) / |expectancies| as real;
            && stability.Some? && 0.0 <= stability.value <= 1.0
            && (stability.value == 0.0 <==> mean <= 0.0)
            && (stability.value == 1.0 <==> mean > 0.0 && AllAre(expectancies, expectancies[0]))
  {
    var mean := Sum(expectancies) / |expectancies| as real;
    if mean > 0.0 {
      DispersionSign(expectancies, mean, sqrt);
      Reciprocal(Dispersion(expectancies, mean, sqrt));
      if AllAre(expectancies, expectancies[0]) {
        MeanOfEqual(expectancies, expectancies[0]);
      }
    }
  }

  // ---- run_walk_forward ----

  datatype Score = Score(window: Window, tradeCount: nat, expectancyR: Option<real>, totalNetR: real)

  /** One window: too few bars are not simulated, the rest on their own. */
  function ScoreOf(m: S.Setup, bars: seq<S.Bar>, w: Window): Score
    requires 0 <= w.start <= w.end <= |bars|
  {
    if w.end - w.start < MIN_BARS_PER_WINDOW then Score(w, 0, None, 0.0)
    else
      var trades := S.Trades(m, bars[w.start..w.end], 0);
      var total := Total(NetR, trades);
      Score(w, |trades|, if trades == [] then None else Some(total / |trades| as real), total)
  }

  predicate Counts(s: Score, minTrades: int) {
    s.tradeCount >= minTrades && s.expectancyR.Some?
  }

  /** A window of at least two bars is scored on its own bars alone; a shorter one has no trades. */
  lemma ScoreIs(m: S.Setup, bars: seq<S.Bar>, w: Window)
    requires 0 <= w.start <= w.end <= |bars|
    ensures ScoreOf(m, bars, w).window == w
    ensures w.end - w.start < 2 ==> ScoreOf(m, bars, w) == Score(w, 0, None, 0.0)
    ensures w.end - w.start >= 2 ==>
              var s, trades := ScoreOf(m, bars, w), S.Trades(m, bars[w.start..w.end], 0);
              && s.tradeCount == |trades| && s.totalNetR == Total(NetR, trades) && (s.expectancyR.None? <==> trades == [])
              && (trades != [] ==> IsShare(s.expectancyR.value, Total(NetR, trades), |trades| as real))
  {
    if w.end - w.start >= 2 {
      var trades := S.Trades(m, bars[w.start..w.end], 0);
      if trades != [] { QuotientIsShare(Total(NetR, trades), |trades| as real); }
    }
  }

  /** One window counts if it made enough trades and has an expectancy; it passes if that is positive. */
  lemma CountedIs(s: Score, minTrades: int)
    ensures Traded([s], minTrades) == if s.tradeCount >= minTrades && s.expectancyR.Some? then [s.expectancyR.value] else []
    ensures s.expectancyR.Some? ==> Positive([s.expectancyR.value]) == if s.expectancyR.value > 0.0 then 1 else 0
  {
    assert [s][..0] == [];
    if s.expectancyR.Some? { assert [s.expectancyR.value][..0] == []; }
  }

  /** The expectancies of the windows that traded enough, in order. */
  function Traded(scores: seq<Score>, minTrades: int): seq<real> {
    if scores == [] then []
    else
      var last := scores[|scores| - 1];
      Traded(scores[..|scores| - 1], minTrades) + if Counts(last, minTrades) then [last.expectancyR.value] else []
  }

  function Positive(xs: seq<real>): nat {
    if xs == [] then 0 else Positive(xs[..|xs| - 1]) + if xs[|xs| - 1] > 0.0 then 1 else 0
  }

  lemma CountOneMore(scores: seq<Score>, score: Score, minTrades: int)
    ensures Traded(scores + [score], minTrades) ==
            Traded(scores, minTrades) + if Counts(score, minTrades) then [score.expectancyR.value] else []
    ensures Counts(score, minTrades) ==>
              Positive(Traded(scores + [score], minTrades)) ==
              Positive(Traded(scores, minTrades)) + if score.expectancyR.value > 0.0 then 1 else 0
  {
  }

  lemma {:induction false} PositiveBounded(xs: seq<real>)
    ensures Positive(xs) <= |xs|
  {
    if xs != [] { PositiveBounded(xs[..|xs| - 1]); }
  }

  datatype Summary = Summary(windows: seq<Score>, windowsWithTrades: nat, passRate: Option<real>, stability: Option<real>)

  /** Simulate one window, unless it is too short. */
  method ScoreWindow(m: S.Setup, bars: seq<S.Bar>, w: Window) returns (score: Score)
    requires 0 <= w.start <= w.end <= |bars|
    ensures score == ScoreOf(m, bars, w)
  {
    score := Score(w, 0, None, 0.0);
    if w.end - w.start >= MIN_BARS_PER_WINDOW {
      var trades, entries := S.SimulateStrategy(m, bars[w.start..w.end]);
      var total := Total(NetR, trades);
      score := Score(w, |trades|, if trades == [] then None else Some(total / |trades| as real), total);
    }
  }

  /** run_walk_forward's loop over the windows: each is scored on its own bars alone. */
  method ScoreWindows(m: S.Setup, bars: seq<S.Bar>, windows: seq<Window>, minTrades: int)
    returns (scores: seq<Score>, expectancies: seq<real>, passes: nat)
    requires forall i :: 0 <= i < |windows| ==> 0 <= windows[i].start <= windows[i].end <= |bars|
    ensures |scores| == |windows| && forall i :: 0 <= i < |windows| ==> scores[i] == ScoreOf(m, bars, windows[i])
    ensures expectancies == Traded(scores, minTrades) && passes == Positive(expectancies)
  {
    scores, expectancies, passes := [], [], 0;
    for idx := 0 to |windows|
      invariant |scores| == idx && forall i :: 0 <= i < idx ==> scores[i] == ScoreOf(m, bars, windows[i])
      invariant expectancies == Traded(scores, minTrades) && passes == Positive(expectancies)
    {
      var score := ScoreWindow(m, bars, windows[idx]);
      CountOneMore(scores, score, minTrades);
      if score.tradeCount >= minTrades && score.expectancyR.Some? {
        expectancies := expectancies + [score.expectancyR.value];
        if score.expectancyR.value > 0.0 {
          passes := passes + 1;
        }
      }
      scores := scores + [score];
    }
  }

  /** run_walk_forward: the windows tile the frame, and both robustness figures, taken over the
      windows that traded, lie in [0, 1]. */
  method RunWalkForward(m: S.Setup, bars: seq<S.Bar>, k: int, minTrades: int, sqrt: real -> real)
    returns (summary: Summary, windows: seq<Window>)
    requires IsSqrt(sqrt)
    ensures |windows| == if k <= 0 then 0 else if k < |bars| then k else |bars|
    ensures windows != [] ==> Tiles(windows, 0, |bars|)
    ensures |summary.windows| == |windows|
    ensures forall i :: 0 <= i < |windows| ==>
              0 <= windows[i].start < windows[i].end <= |bars| && summary.windows[i] == ScoreOf(m, bars, windows[i])
    ensures summary.windowsWithTrades == |Traded(summary.windows, minTrades)|
    ensures summary.passRate.None? <==> summary.windowsWithTrades == 0
    ensures summary.passRate.Some? ==>
              summary.passRate.value ==
              Positive(Traded(summary.windows, minTrades)) as real / summary.windowsWithTrades as real
    ensures summary.passRate.Some? ==> 0.0 <= summary.passRate.value <= 1.0
    ensures summary.stability == TemporalStability(Traded(summary.windows, minTrades), sqrt)
    ensures summary.stability.Some? ==> 0.0 <= summary.stability.value <= 1.0
  {
    windows := SplitWindows(|bars|, k);
    if windows != [] {
      TilesWithin(windows, 0, |bars|);
    }
    var scores, expectancies, passes := ScoreWindows(m, bars, windows, minTrades);
    PositiveBounded(expectancies);
    var passRate := None;
    if |expectancies| > 0 {
      Share(passes, |expectancies|);
      passRate := Some(passes as real / |expectancies| as real);
    }
    if |expectancies| >= 2 {
      StabilityRange(expectancies, sqrt);
    }
    summary := Summary(scores, |expectancies|, passRate, TemporalStability(expectancies, sqrt));
  }
}
