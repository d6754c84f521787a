/** Higher-timeframe trend columns of features/higher_timeframe.py: resample, EMA, backward as-of join. */
module HigherTimeframe {
  import opened Common

  /** A base candle: its timestamp and its close, None where the close is not a number. */
  datatype Candle = Candle(ts: int, close: Option<real>)

  datatype Trend = UP | DOWN | FLAT

  /** One higher timeframe: bar length and the two EMA spans. */
  datatype Spec = Spec(period: int, fast: int, slow: int)

  /** A resampled bar, opening at `open`. */
  datatype Bar = Bar(open: int, close: real)

  /** What a bar publishes, and when. */
  datatype TrendBar = TrendBar(trend: Option<Trend>, gap: Option<real>, availableAt: int)

  datatype Cell = Cell(trend: Option<Trend>, gap: Option<real>)

  const NO_CELL := Cell(None, None)

  // ---- duplicated(keep="last") and sort_index ----

  function Put(series: seq<Candle>, c: Candle): seq<Candle> {
    if series == [] then [c]
    else
      var last, init := series[|series| - 1], series[..|series| - 1];
      if last.ts < c.ts then series + [c]
      else if last.ts == c.ts then init + [c]
      else Put(init, c) + [last]
  }

  function Series(candles: seq<Candle>): seq<Candle> {
    if candles == [] then [] else Put(Series(candles[..|candles| - 1]), candles[|candles| - 1])
  }

  // ---- resample(rule).agg(last).dropna() ----

  /** The opening time of the bar a timestamp falls in. */
  function Bucket(ts: int, period: int): (open: int)
    requires period > 0
    ensures open <= ts < open + period
  {
    ts / period * period
  }

  function PushBar(bars: seq<Bar>, c: Candle, period: int): seq<Bar>
    requires period > 0
  {
    if c.close.None? then bars
    else
      var bar := Bar(Bucket(c.ts, period), c.close.value);
      if bars != [] && bars[|bars| - 1].open == bar.open then bars[..|bars| - 1] + [bar] else bars + [bar]
  }

  function Bars(series: seq<Candle>, period: int): seq<Bar>
    requires period > 0
  {
    if series == [] then [] else PushBar(Bars(series[..|series| - 1], period), series[|series| - 1], period)
  }

  // ---- ewm(span, adjust=False, min_periods=span).mean() ----

  function Mean(bars: seq<Bar>, span: int): real
    requires bars != [] && span >= 1
  {
    var last := bars[|bars| - 1].close;
    if |bars| == 1 then last
    else
      var alpha := 2.0 / (span as real + 1.0);
      (1.0 - alpha) * Mean(bars[..|bars| - 1], span) + alpha * last
  }

  function Ema(bars: seq<Bar>, span: int): Option<real>
    requires bars != [] && span >= 1
  {
    if |bars| < span then None else Some(Mean(bars, span))
  }

  // ---- _trend_frame ----

  function Gap(fast: Option<real>, slow: Option<real>): Option<real> {
    if fast.None? || slow.None? || slow.value == 0.0 then None
    else Some((fast.value - slow.value) / slow.value)
  }

  function TrendOf(gap: Option<real>, flatEps: real): Option<Trend> {
    if gap.None? then None
    else if gap.value > flatEps then Some(UP)
    else if gap.value < -flatEps then Some(DOWN)
    else Some(FLAT)
  }

  predicate Usable(spec: Spec) {
    spec.period > 0 && spec.fast >= 1 && spec.slow >= 1
  }

  /** What the newest of these bars publishes, at its close. */
  function Publish(bars: seq<Bar>, spec: Spec, flatEps: real): TrendBar
    requires bars != [] && Usable(spec)
  {
    var gap := Gap(Ema(bars, spec.fast), Ema(bars, spec.slow));
    TrendBar(TrendOf(gap, flatEps), gap, bars[|bars| - 1].open + spec.period)
  }

  function TrendFrame(bars: seq<Bar>, spec: Spec, flatEps: real): (frame: seq<TrendBar>)
    requires Usable(spec)
  {
    if bars == [] then [] else TrendFrame(bars[..|bars| - 1], spec, flatEps) + [Publish(bars, spec, flatEps)]
  }

  /** merge_asof backward: the last row available at or before t. */
  function AsOf(frame: seq<TrendBar>, t: int): Option<TrendBar> {
    if frame == [] then None
    else if frame[|frame| - 1].availableAt <= t then Some(frame[|frame| - 1])
    else AsOf(frame[..|frame| - 1], t)
  }

  // ---- add_higher_timeframe_features ----

  /** One higher timeframe joined to a base row at time t. */
  function JoinedAt(candles: seq<Candle>, spec: Spec, flatEps: real, t: int): Cell
    requires Usable(spec)
  {
    match AsOf(TrendFrame(Bars(Series(candles), spec.period), spec, flatEps), t)
    case None => NO_CELL
    case Some(bar) => Cell(bar.trend, bar.gap)
  }

  function CellAt(candles: seq<Candle>, baseInterval: int, spec: Spec, flatEps: real, t: int): Cell
    requires Usable(spec)
  {
    if spec.period <= baseInterval then NO_CELL else JoinedAt(candles, spec, flatEps, t)
  }

  function Score(trend: Trend): real {
    match trend case UP => 1.0 case DOWN => -1.0 case FLAT => 0.0
  }

  /** Sum of the scores on this row, None as soon as one timeframe has none. */
  function ScoreSum(row: seq<Cell>): Option<real> {
    if row == [] then Some(0.0)
    else
      var rest, last := ScoreSum(row[..|row| - 1]), row[|row| - 1];
      if rest.None? || last.trend.None? then None else Some(rest.value + Score(last.trend.value))
  }

  function Alignment(row: seq<Cell>): Option<real> {
    if row == [] || ScoreSum(row).None? then None else Some(ScoreSum(row).value / |row| as real)
  }

  /** The whole row: a cell per timeframe. */
  function RowCells(candles: seq<Candle>, baseInterval: int, specs: seq<Spec>, flatEps: real, t: int): (row: seq<Cell>)
    requires forall spec :: spec in specs ==> Usable(spec)
    ensures |row| == |specs|
  {
    if specs == [] then []
    else
      RowCells(candles, baseInterval, specs[..|specs| - 1], flatEps, t) +
      [CellAt(candles, baseInterval, specs[|specs| - 1], flatEps, t)]
  }

  function Candles(stamps: seq<int>, closes: seq<Option<real>>): seq<Candle>
    requires |stamps| == |closes|
  {
    if stamps == [] then []
    else
      var n := |stamps| - 1;
      Candles(stamps[..n], closes[..n]) + [Candle(stamps[n], closes[n])]
  }

  predicate AllParsed(stamps: seq<Option<int>>) {
    forall i :: 0 <= i < |stamps| ==> stamps[i].Some?
  }

  function Parsed(stamps: seq<Option<int>>): (parsed: seq<int>)
    requires AllParsed(stamps)
    ensures |parsed| == |stamps| && forall i :: 0 <= i < |stamps| ==> stamps[i] == Some(parsed[i])
  {
    if stamps == [] then [] else Parsed(stamps[..|stamps| - 1]) + [stamps[|stamps| - 1].value]
  }

  /** The columns stay blank: no rows, an unparseable timestamp, or no positive base interval.
      `median` is pandas' median of the timestamp differences, any function of the timestamps. */
  predicate Blank(stamps: seq<Option<int>>, median: seq<int> -> Option<int>) {
    stamps == [] || !AllParsed(stamps) || median(Parsed(stamps)).None? || median(Parsed(stamps)).value <= 0
  }

  /** The columns at row i. */
  function Features(stamps: seq<Option<int>>, closes: seq<Option<real>>, median: seq<int> -> Option<int>,
                    specs: seq<Spec>, flatEps: real, i: nat): (row: seq<Cell>)
    requires |stamps| == |closes| && i < |stamps|
    requires forall spec :: spec in specs ==> Usable(spec)
  {
    if Blank(stamps, median) then seq(|specs|, _ => NO_CELL)
    else
      var ts := Parsed(stamps);
      RowCells(Candles(ts, closes), median(ts).value, specs, flatEps, ts[i])
  }

  lemma {:induction false} RowCellIs(candles: seq<Candle>, baseInterval: int, specs: seq<Spec>, flatEps: real, t: int, s: nat)
    requires s < |specs| && forall spec :: spec in specs ==> Usable(spec)
    ensures RowCells(candles, baseInterval, specs, flatEps, t)[s] == CellAt(candles, baseInterval, specs[s], flatEps, t)
  {
    if s < |specs| - 1 { RowCellIs(candles, baseInterval, specs[..|specs| - 1], flatEps, t, s); }
  }

  /** One timeframe's column: resample once, join every row. */
  method Column(candles: seq<Candle>, ts: seq<int>, baseInterval: int, spec: Spec, flatEps: real) returns (column: seq<Cell>)
    requires Usable(spec)
    ensures |column| == |ts|
    ensures forall i :: 0 <= i < |ts| ==> column[i] == CellAt(candles, baseInterval, spec, flatEps, ts[i])
  {
    if spec.period <= baseInterval {
      return seq(|ts|, _ => NO_CELL);
    }
    var frame := TrendFrame(Bars(Series(candles), spec.period), spec, flatEps);
    column := [];
    for i := 0 to |ts|
      invariant |column| == i
      invariant forall j :: 0 <= j < i ==> column[j] == CellAt(candles, baseInterval, spec, flatEps, ts[j])
    {
      var bar := AsOf(frame, ts[i]);
      column := column + [if bar.Some? then Cell(bar.value.trend, bar.value.gap) else NO_CELL];
    }
  }

  /** The loop over the timeframes. */
  method Columns(candles: seq<Candle>, ts: seq<int>, baseInterval: int, specs: seq<Spec>, flatEps: real)
    returns (columns: seq<seq<Cell>>)
    requires forall spec :: spec in specs ==> Usable(spec)
    ensures |columns| == |specs| && forall s :: 0 <= s < |specs| ==> |columns[s]| == |ts|
    ensures forall i :: 0 <= i < |ts| ==>
              RowOf(columns, |ts|, i) == RowCells(candles, baseInterval, specs, flatEps, ts[i])
  {
    columns := [];
    for s := 0 to |specs|
      invariant |columns| == s && forall k :: 0 <= k < s ==> |columns[k]| == |ts|
      invariant forall k, i :: 0 <= k < s && 0 <= i < |ts| ==>
                  columns[k][i] == CellAt(candles, baseInterval, specs[k], flatEps, ts[i])
    {
      var column := Column(candles, ts, baseInterval, specs[s], flatEps);
      columns := columns + [column];
    }
    forall i | 0 <= i < |ts| ensures RowOf(columns, |ts|, i) == RowCells(candles, baseInterval, specs, flatEps, ts[i]) {
      forall s | 0 <= s < |specs| ensures columns[s][i] == RowCells(candles, baseInterval, specs, flatEps, ts[i])[s] {
        RowCellIs(candles, baseInterval, specs, flatEps, ts[i], s);
      }
    }
  }

  /** Row i across the columns. */
  function RowOf(columns: seq<seq<Cell>>, rows: nat, i: nat): seq<Cell>
    requires i < rows && forall s :: 0 <= s < |columns| ==> |columns[s]| == rows
  {
    seq(|columns|, s requires 0 <= s < |columns| => columns[s][i])
  }

  /** add_higher_timeframe_features: one column per timeframe and the alignment score. */
  method AddHigherTimeframeFeatures(stamps: seq<Option<int>>, closes: seq<Option<real>>,
                                    median: seq<int> -> Option<int>, specs: seq<Spec>, flatEps: real)
    returns (columns: seq<seq<Cell>>, alignment: seq<Option<real>>)
    requires |stamps| == |closes| && forall spec :: spec in specs ==> Usable(spec)
    ensures |columns| == |specs| && |alignment| == |stamps|
    ensures forall s :: 0 <= s < |specs| ==> |columns[s]| == |stamps|
    ensures forall i :: 0 <= i < |stamps| ==>
              RowOf(columns, |stamps|, i) == Features(stamps, closes, median, specs, flatEps, i)
    ensures forall i :: 0 <= i < |stamps| ==>
              alignment[i] == Alignment(Features(stamps, closes, median, specs, flatEps, i))
  {
    if Blank(stamps, median) {
      columns := seq(|specs|, _ => seq(|stamps|, _ => NO_CELL));
    } else {
      var ts := Parsed(stamps);
      columns := Columns(Candles(ts, closes), ts, median(ts).value, specs, flatEps);
    }
    alignment := [];
    for i := 0 to |stamps|
      invariant |alignment| == i
      invariant forall j :: 0 <= j < i ==> alignment[j] == Alignment(RowOf(columns, |stamps|, j))
    {
      alignment := alignment + [Alignment(RowOf(columns, |stamps|, i))];
    }
  }

  lemma {:induction false} CandlesAre(stamps: seq<int>, closes: seq<Option<real>>, k: nat)
    requires |stamps| == |closes| && k < |stamps|
    ensures |Candles(stamps, closes)| == |stamps| && Candles(stamps, closes)[k] == Candle(stamps[k], closes[k])
  {
    var n := |stamps| - 1;
    if n > 0 {
      CandlesAre(stamps[..n], closes[..n], if k < n then k else 0);
    }
  }

  /** When the columns are blank: a row without a timestamp, or no positive interval between rows; and for one timeframe,
      when it is not coarser than the rows themselves. Else a cell is the join at the row's own time. */
  lemma FeaturesAre(stamps: seq<Option<int>>, closes: seq<Option<real>>, median: seq<int> -> Option<int>, specs: seq<Spec>,
                    flatEps: real, i: nat, s: nat)
    requires |stamps| == |closes| && i < |stamps| && s < |specs| && forall spec :: spec in specs ==> Usable(spec)
    ensures Blank(stamps, median) <==>
            (exists k :: 0 <= k < |stamps| && stamps[k].None?) || median(Parsed(stamps)).None? || median(Parsed(stamps)).value <= 0
    ensures Features(stamps, closes, median, specs, flatEps, i)[s] ==
            if Blank(stamps, median) || specs[s].period <= median(Parsed(stamps)).value then Cell(None, None)
            else JoinedAt(Candles(Parsed(stamps), closes), specs[s], flatEps, Parsed(stamps)[i])
  {
    if !Blank(stamps, median) {
      RowCellIs(Candles(Parsed(stamps), closes), median(Parsed(stamps)).value, specs, flatEps, Parsed(stamps)[i], s);
    }
  }

  // ---- nothing at or after t reaches a row at t ----

  predicate Sorted(series: seq<Candle>) {
    forall i, j :: 0 <= i < j < |series| ==> series[i].ts < series[j].ts
  }

  /** The candles stamped before t, in order. */
  function Before(candles: seq<Candle>, t: int): seq<Candle> {
    if candles == [] then []
    else
      var rest, last := Before(candles[..|candles| - 1], t), candles[|candles| - 1];
      if last.ts < t then rest + [last] else rest
  }

  lemma {:induction false} PutSorts(series: seq<Candle>, c: Candle)
    requires Sorted(series)
    ensures Sorted(Put(series, c)) && Put(series, c) != []
    ensures Put(series, c)[|Put(series, c)| - 1].ts == if series == [] || series[|series| - 1].ts < c.ts then c.ts else series[|series| - 1].ts
  {
    if series != [] && series[|series| - 1].ts > c.ts {
      PutSorts(series[..|series| - 1], c);
    }
  }

  lemma {:induction false} SeriesSorted(candles: seq<Candle>)
    ensures Sorted(Series(candles))
  {
    if candles != [] {
      SeriesSorted(candles[..|candles| - 1]);
      PutSorts(Series(candles[..|candles| - 1]), candles[|candles| - 1]);
    }
  }

  lemma BeforeSnoc(candles: seq<Candle>, c: Candle, t: int)
    ensures Before(candles + [c], t) == Before(candles, t) + if c.ts < t then [c] else []
  {
  }

  /** In a sorted series, everything is before t once the last is. */
  lemma {:induction false} AllBefore(series: seq<Candle>, t: int)
    requires Sorted(series) && (series != [] ==> series[|series| - 1].ts < t)
    ensures Before(series, t) == series
  {
    if series != [] {
      AllBefore(series[..|series| - 1], t);
      assert series == series[..|series| - 1] + [series[|series| - 1]];
    }
  }

  lemma PutBeforeAll(series: seq<Candle>, c: Candle, t: int)
    requires Sorted(series) && (series != [] ==> series[|series| - 1].ts < t)
    ensures Before(Put(series, c), t) == if c.ts < t then Put(Before(series, t), c) else Before(series, t)
  {
    AllBefore(series, t);
    if c.ts < t {
      PutSorts(series, c);
      AllBefore(Put(series, c), t);
    } else {
      BeforeSnoc(series, c, t);
      assert Put(series, c) == series + [c];
    }
  }

  lemma {:induction false} PutBefore(series: seq<Candle>, c: Candle, t: int)
    requires Sorted(series)
    ensures Before(Put(series, c), t) == if c.ts < t then Put(Before(series, t), c) else Before(series, t)
  {
    if series == [] || series[|series| - 1].ts < t {
      PutBeforeAll(series, c, t);
    } else {
      var last, init := series[|series| - 1], series[..|series| - 1];
      if last.ts < c.ts {
        BeforeSnoc(series, c, t);
      } else if last.ts == c.ts {
        BeforeSnoc(init, c, t);
      } else {
        PutBefore(init, c, t);
        BeforeSnoc(Put(init, c), last, t);
      }
    }
  }

  lemma {:induction false} SeriesBefore(candles: seq<Candle>, t: int)
    ensures Before(Series(candles), t) == Series(Before(candles, t))
  {
    if candles != [] {
      var init, last := candles[..|candles| - 1], candles[|candles| - 1];
      SeriesBefore(init, t);
      SeriesSorted(init);
      PutBefore(Series(init), last, t);
      if last.ts < t {
        assert (Before(init, t) + [last])[..|Before(init, t)|] == Before(init, t);
      }
    }
  }

  /** The bars closed at t, from the newest such bar back. */
  function Closed(bars: seq<Bar>, period: int, t: int): seq<Bar> {
    if bars == [] || bars[|bars| - 1].open + period <= t then bars else Closed(bars[..|bars| - 1], period, t)
  }

  /** A candle at or after t only touches a bar that is still forming at t. */
  lemma LateCandleTouchesNoClosedBar(bars: seq<Bar>, c: Candle, period: int, t: int)
    requires period > 0 && c.ts >= t
    ensures Closed(PushBar(bars, c, period), period, t) == Closed(bars, period, t)
  {
  }

  lemma {:induction false} ClosedBarsFromBefore(series: seq<Candle>, period: int, t: int)
    requires period > 0 && Sorted(series)
    ensures Closed(Bars(series, period), period, t) == Closed(Bars(Before(series, t), period), period, t)
  {
    if series != [] {
      var init, last := series[..|series| - 1], series[|series| - 1];
      if last.ts < t {
        AllBefore(series, t);
      } else {
        ClosedBarsFromBefore(init, period, t);
        LateCandleTouchesNoClosedBar(Bars(init, period), last, period, t);
      }
    }
  }

  /** The as-of join reads only the closed bars. */
  lemma {:induction false} AsOfReadsClosedBars(bars: seq<Bar>, spec: Spec, flatEps: real, t: int)
    requires Usable(spec)
    ensures var closed := Closed(bars, spec.period, t);
            AsOf(TrendFrame(bars, spec, flatEps), t) == if closed == [] then None else Some(Publish(closed, spec, flatEps))
  {
    if bars != [] {
      var rest, newest := TrendFrame(bars[..|bars| - 1], spec, flatEps), Publish(bars, spec, flatEps);
      assert (rest + [newest])[..|rest|] == rest;
      AsOfReadsClosedBars(bars[..|bars| - 1], spec, flatEps, t);
    }
  }

  /** The join at t is a function of the candles stamped before t. */
  lemma JoinReadsThePast(candles: seq<Candle>, spec: Spec, flatEps: real, t: int)
    requires Usable(spec)
    ensures JoinedAt(candles, spec, flatEps, t) == JoinedAt(Before(candles, t), spec, flatEps, t)
  {
    var bars, past := Bars(Series(candles), spec.period), Bars(Series(Before(candles, t)), spec.period);
    SeriesSorted(candles);
    SeriesBefore(candles, t);
    ClosedBarsFromBefore(Series(candles), spec.period, t);
    AsOfReadsClosedBars(bars, spec, flatEps, t);
    AsOfReadsClosedBars(past, spec, flatEps, t);
  }

  lemma {:induction false} RowReadsThePast(candles: seq<Candle>, changed: seq<Candle>, baseInterval: int,
                                           specs: seq<Spec>, flatEps: real, t: int)
    requires forall spec :: spec in specs ==> Usable(spec)
    requires Before(candles, t) == Before(changed, t)
    ensures RowCells(candles, baseInterval, specs, flatEps, t) == RowCells(changed, baseInterval, specs, flatEps, t)
  {
    if specs != [] {
      RowReadsThePast(candles, changed, baseInterval, specs[..|specs| - 1], flatEps, t);
      JoinReadsThePast(candles, specs[|specs| - 1], flatEps, t);
      JoinReadsThePast(changed, specs[|specs| - 1], flatEps, t);
    }
  }

  lemma {:induction false} SamePast(ts: seq<int>, closes: seq<Option<real>>, changed: seq<Option<real>>, t: int)
    requires |ts| == |closes| == |changed|
    requires forall j :: 0 <= j < |ts| && ts[j] < t ==> closes[j] == changed[j]
    ensures Before(Candles(ts, closes), t) == Before(Candles(ts, changed), t)
  {
    if ts != [] {
      var n := |ts| - 1;
      SamePast(ts[..n], closes[..n], changed[..n], t);
      BeforeSnoc(Candles(ts[..n], closes[..n]), Candle(ts[n], closes[n]), t);
      BeforeSnoc(Candles(ts[..n], changed[..n]), Candle(ts[n], changed[n]), t);
    }
  }

  /** No look-ahead: for fixed timestamps, no change to closes of rows stamped at or after row i
      changes a trend, a gap or the alignment at row i. */
  lemma NoLookAhead(stamps: seq<Option<int>>, closes: seq<Option<real>>, changed: seq<Option<real>>,
                    median: seq<int> -> Option<int>, specs: seq<Spec>, flatEps: real, i: nat)
    requires |stamps| == |closes| == |changed| && i < |stamps|
    requires forall spec :: spec in specs ==> Usable(spec)
    requires forall j :: 0 <= j < |stamps| && stamps[j].Some? && stamps[i].Some? && stamps[j].value < stamps[i].value ==>
               closes[j] == changed[j]
    ensures Features(stamps, closes, median, specs, flatEps, i) == Features(stamps, changed, median, specs, flatEps, i)
    ensures Alignment(Features(stamps, closes, median, specs, flatEps, i)) ==
            Alignment(Features(stamps, changed, median, specs, flatEps, i))
  {
    if !Blank(stamps, median) {
      var ts := Parsed(stamps);
      SamePast(ts, closes, changed, ts[i]);
      RowReadsThePast(Candles(ts, closes), Candles(ts, changed), median(ts).value, specs, flatEps, ts[i]);
    }
  }

  // ---- what a row does see ----

  lemma {:induction false} PutReplaces(series: seq<Candle>, c: Candle, d: Candle)
    requires Sorted(series)
    ensures d in Put(series, c) <==> d == c || (d in series && d.ts != c.ts)
  {
    if series != [] {
      var last, init := series[|series| - 1], series[..|series| - 1];
      assert series == init + [last];
      if last.ts > c.ts {
        PutReplaces(init, c, d);
      } else {
        assert d in init ==> d.ts < last.ts;
      }
    }
  }

  /** No later candle has this timestamp. */
  predicate IsLast(candles: seq<Candle>, d: Candle) {
    if candles == [] then false
    else
      var c := candles[|candles| - 1];
      d == c || (d.ts != c.ts && IsLast(candles[..|candles| - 1], d))
  }

  /** Of candles with the same timestamp the series keeps exactly the last. */
  lemma {:induction false} SeriesKeepsTheLast(candles: seq<Candle>, d: Candle)
    ensures d in Series(candles) <==> IsLast(candles, d)
  {
    if candles != [] {
      var init, c := candles[..|candles| - 1], candles[|candles| - 1];
      SeriesKeepsTheLast(init, d);
      SeriesSorted(init);
      PutReplaces(Series(init), c, d);
    }
  }

  predicate Opens(bars: seq<Bar>) {
    forall i, j :: 0 <= i < j < |bars| ==> bars[i].open < bars[j].open
  }

  /** This bar's close is the last numeric close stamped within it. */
  ghost predicate LastWithin(series: seq<Candle>, bar: Bar, period: int)
    requires period > 0
  {
    exists k :: 0 <= k < |series| && series[k].close == Some(bar.close) && Bucket(series[k].ts, period) == bar.open
      && forall j :: k < j < |series| && Bucket(series[j].ts, period) == bar.open ==> series[j].close.None?
  }

  predicate HasBar(bars: seq<Bar>, open: int) {
    exists b :: 0 <= b < |bars| && bars[b].open == open
  }

  /** The bars of a sorted series: in order, one for every period with a numeric close, holding the last of them. */
  ghost predicate Resamples(series: seq<Candle>, bars: seq<Bar>, period: int)
    requires period > 0
  {
    && Opens(bars)
    && (forall b :: 0 <= b < |bars| ==> LastWithin(series, bars[b], period))
    && (forall k :: 0 <= k < |series| && series[k].close.Some? ==>
          HasBar(bars, Bucket(series[k].ts, period)))
  }

  lemma MulOrder(qa: int, qb: int, period: int)
    requires period > 0 && qa <= qb
    ensures qa * period <= qb * period
  {
  }

  lemma BucketMonotone(a: int, b: int, period: int)
    requires period > 0 && a <= b
    ensures Bucket(a, period) <= Bucket(b, period)
  {
    if a / period > b / period {
      MulOrder(b / period + 1, a / period, period);
    } else {
      MulOrder(a / period, b / period, period);
    }
  }

  lemma StaysLastWithin(series: seq<Candle>, c: Candle, bar: Bar, period: int)
    requires period > 0 && LastWithin(series, bar, period)
    requires c.close.None? || Bucket(c.ts, period) != bar.open
    ensures LastWithin(series + [c], bar, period)
  {
    var k :| 0 <= k < |series| && series[k].close == Some(bar.close) && Bucket(series[k].ts, period) == bar.open
      && forall j :: k < j < |series| && Bucket(series[j].ts, period) == bar.open ==> series[j].close.None?;
    var more := series + [c];
    assert more[k] == series[k];
    assert forall j :: k < j < |series| ==> more[j] == series[j];
  }

  lemma BarNotAfter(series: seq<Candle>, c: Candle, bar: Bar, period: int)
    requires period > 0 && LastWithin(series, bar, period) && Sorted(series + [c])
    ensures bar.open <= Bucket(c.ts, period)
  {
    var k :| 0 <= k < |series| && Bucket(series[k].ts, period) == bar.open;
    assert (series + [c])[k].ts < (series + [c])[|series|].ts;
    BucketMonotone(series[k].ts, c.ts, period);
  }

  lemma PushCovers(bars: seq<Bar>, c: Candle, open: int, period: int)
    requires period > 0 && (HasBar(bars, open) || (c.close.Some? && open == Bucket(c.ts, period)))
    ensures HasBar(PushBar(bars, c, period), open)
  {
    var pushed := PushBar(bars, c, period);
    if HasBar(bars, open) {
      var b :| 0 <= b < |bars| && bars[b].open == open;
      assert pushed[b].open == open;
    } else {
      assert pushed[|pushed| - 1].open == open;
    }
  }

  /** A pushed candle goes after the bars it leaves alone. */
  lemma PushLast(bars: seq<Bar>, c: Candle, period: int) returns (kept: nat)
    requires period > 0 && c.close.Some? && Opens(bars)
    requires forall b :: 0 <= b < |bars| ==> bars[b].open <= Bucket(c.ts, period)
    ensures kept <= |bars| && PushBar(bars, c, period) == bars[..kept] + [Bar(Bucket(c.ts, period), c.close.value)]
    ensures forall b :: 0 <= b < kept ==> bars[b].open < Bucket(c.ts, period)
  {
    kept := if bars != [] && bars[|bars| - 1].open == Bucket(c.ts, period) then |bars| - 1 else |bars|;
  }

  lemma NewBarIsLastWithin(series: seq<Candle>, c: Candle, period: int)
    requires period > 0 && c.close.Some?
    ensures LastWithin(series + [c], Bar(Bucket(c.ts, period), c.close.value), period)
  {
    assert (series + [c])[|series|] == c;
  }

  lemma PushKeeps(series: seq<Candle>, c: Candle, bars: seq<Bar>, period: int)
    requires period > 0 && Sorted(series + [c]) && Opens(bars)
    requires forall b :: 0 <= b < |bars| ==> LastWithin(series, bars[b], period)
    ensures var pushed := PushBar(bars, c, period);
            Opens(pushed) && forall b :: 0 <= b < |pushed| ==> LastWithin(series + [c], pushed[b], period)
  {
    if c.close.None? {
      forall b | 0 <= b < |bars| ensures LastWithin(series + [c], bars[b], period) {
        StaysLastWithin(series, c, bars[b], period);
      }
    } else {
      forall b | 0 <= b < |bars| ensures bars[b].open <= Bucket(c.ts, period) {
        BarNotAfter(series, c, bars[b], period);
      }
      var kept := PushLast(bars, c, period);
      forall b | 0 <= b < kept ensures LastWithin(series + [c], bars[b], period) {
        StaysLastWithin(series, c, bars[b], period);
      }
      NewBarIsLastWithin(series, c, period);
    }
  }

  lemma PushResamples(series: seq<Candle>, c: Candle, bars: seq<Bar>, period: int)
    requires period > 0 && Sorted(series + [c]) && Resamples(series, bars, period)
    ensures Resamples(series + [c], PushBar(bars, c, period), period)
  {
    PushKeeps(series, c, bars, period);
    var more := series + [c];
    forall k | 0 <= k < |more| && more[k].close.Some? ensures HasBar(PushBar(bars, c, period), Bucket(more[k].ts, period)) {
      assert k < |series| ==> more[k] == series[k];
      PushCovers(bars, c, Bucket(more[k].ts, period), period);
    }
  }

  lemma {:induction false} BarsResample(series: seq<Candle>, period: int)
    requires period > 0 && Sorted(series)
    ensures Resamples(series, Bars(series, period), period)
  {
    if series != [] {
      var init, last := series[..|series| - 1], series[|series| - 1];
      assert series == init + [last];
      BarsResample(init, period);
      PushResamples(init, last, Bars(init, period), period);
    }
  }

  lemma {:induction false} ClosedIsPrefix(bars: seq<Bar>, period: int, t: int)
    requires Opens(bars)
    ensures var n := |Closed(bars, period, t)|;
            n <= |bars| && Closed(bars, period, t) == bars[..n]
            && forall b :: 0 <= b < |bars| ==> (bars[b].open + period <= t <==> b < n)
  {
    if bars != [] && bars[|bars| - 1].open + period > t {
      ClosedIsPrefix(bars[..|bars| - 1], period, t);
    }
  }

  /** What a row at t is joined to: the bars resample the candles, and it reads the newest of exactly
      those that have closed by t, or nothing when none has. */
  lemma JoinReadsTheLatestClosedBar(candles: seq<Candle>, spec: Spec, flatEps: real, t: int)
    returns (bars: seq<Bar>, n: nat)
    requires Usable(spec)
    ensures Resamples(Series(candles), bars, spec.period) && n <= |bars|
    ensures forall b :: 0 <= b < |bars| ==> (bars[b].open + spec.period <= t <==> b < n)
    ensures JoinedAt(candles, spec, flatEps, t) ==
            if n == 0 then NO_CELL
            else Cell(Publish(bars[..n], spec, flatEps).trend, Publish(bars[..n], spec, flatEps).gap)
  {
    bars := Bars(Series(candles), spec.period);
    SeriesSorted(candles);
    BarsResample(Series(candles), spec.period);
    ClosedIsPrefix(bars, spec.period, t);
    n := |Closed(bars, spec.period, t)|;
    AsOfReadsClosedBars(bars, spec, flatEps, t);
  }
}
