/** The value grid: one horizontal line per step of the quantised value range
    of the selected time slice, from High down to Low, with an optional value
    label beside each line. */
module YGrid {
  import opened Wrappers
  import opened Num
  import opened Geo2d
  import opened Timeline
  import opened StockSerie
  import opened DrawingPrimitives
  import Datarange

  /** `vals` starts at `high` and each value is one step below the previous. */
  predicate StepsDown(vals: seq<real>, high: real, step: real) {
    && (|vals| > 0 ==> vals[0] == high)
    && (forall k :: 0 < k < |vals| ==> vals[k] == vals[k - 1] - step)
  }

  /** The value n steps down from High. */
  function Below(yr: Datarange.DataRange, n: nat): real {
    if n == 0 then yr.high else Below(yr, n - 1) - yr.stepSize
  }

  lemma {:induction false} BelowClosedForm(yr: Datarange.DataRange, n: nat)
    ensures Below(yr, n) == yr.high - n as real * yr.stepSize
  {
    if n > 0 {
      BelowClosedForm(yr, n - 1);
      assert (n - 1) as real * yr.stepSize + yr.stepSize == n as real * yr.stepSize;
    }
  }

  /** n steps down from High stay at or above Low only while n is at most
      the number of whole steps between them. */
  lemma StepsBound(yr: Datarange.DataRange, n: nat)
    requires yr.stepSize > 0.0 && Below(yr, n) >= yr.low
    ensures n <= ((yr.high - yr.low) / yr.stepSize).Floor
  {
    BelowClosedForm(yr, n);
    assert n as real * yr.stepSize <= yr.high - yr.low;
    assert n as real <= (yr.high - yr.low) / yr.stepSize;
  }

  /** The values the scale loop visits: High, High - step, ... while the
      value stays at or above Low; none when the step is not positive. */
  method Ticks(yr: Datarange.DataRange) returns (vals: seq<real>)
    ensures yr.stepSize <= 0.0 || yr.high < yr.low ==> vals == []
    ensures StepsDown(vals, yr.high, yr.stepSize)
    ensures forall k :: 0 <= k < |vals| ==> yr.low <= vals[k] <= yr.high
    ensures yr.stepSize > 0.0 && |vals| > 0 ==> vals[|vals| - 1] - yr.stepSize < yr.low
    ensures yr.stepSize > 0.0 && yr.high >= yr.low ==> |vals| > 0
  {
    vals := [];
    if yr.stepSize <= 0.0 {
      return;
    }
    var val := yr.high;
    while val >= yr.low
      invariant val == Below(yr, |vals|)
      invariant val <= yr.high
      invariant |vals| == 0 ==> val == yr.high
      invariant |vals| > 0 ==> val == vals[|vals| - 1] - yr.stepSize
      invariant StepsDown(vals, yr.high, yr.stepSize)
      invariant forall k :: 0 <= k < |vals| ==> yr.low <= vals[k] <= yr.high
      decreases ((yr.high - yr.low) / yr.stepSize).Floor - |vals|
    {
      StepsBound(yr, |vals|);
      vals := vals + [val];
      val := val - yr.stepSize;
    }
  }

  /** A sequence that steps down from High holds High - k * step at index k. */
  lemma {:induction false} StepsDownClosedForm(vals: seq<real>, high: real, step: real)
    requires StepsDown(vals, high, step)
    ensures forall k :: 0 <= k < |vals| ==> vals[k] == high - k as real * step
    decreases |vals|
  {
    if |vals| > 0 {
      var front := vals[..|vals| - 1];
      assert StepsDown(front, high, step) by {
        assert forall k :: 0 <= k < |front| ==> front[k] == vals[k];
      }
      StepsDownClosedForm(front, high, step);
      var n := |vals| - 1;
      if n > 0 {
        assert vals[n] == front[n - 1] - step;
        assert (n - 1) as real * step + step == n as real * step;
      }
    }
  }

  /** The value k steps below High. */
  function Tick(yr: Datarange.DataRange, k: nat): real {
    yr.high - k as real * yr.stepSize
  }

  /** The values the scale loop visits are High - k * step, each at or above
      Low, and one more step would fall below Low. */
  lemma TicksClosedForm(yr: Datarange.DataRange, vals: seq<real>)
    requires StepsDown(vals, yr.high, yr.stepSize)
    requires forall k :: 0 <= k < |vals| ==> yr.low <= vals[k]
    requires yr.stepSize > 0.0 && |vals| > 0 ==> vals[|vals| - 1] - yr.stepSize < yr.low
    ensures forall k :: 0 <= k < |vals| ==> vals[k] == Tick(yr, k)
    ensures yr.stepSize > 0.0 && |vals| > 0 ==> Tick(yr, |vals|) < yr.low
  {
    StepsDownClosedForm(vals, yr.high, yr.stepSize);
    if yr.stepSize > 0.0 && |vals| > 0 {
      var n := |vals|;
      assert (n - 1) as real * yr.stepSize + yr.stepSize == n as real * yr.stepSize;
    }
  }

  /** The row of a value: its progress up the draw area from the bottom edge,
      truncated and bounded into the area. */
  function Row(area: Rect, yr: Datarange.DataRange, dops: Datarange.Ops, val: real): (y: int)
    ensures area.height >= 0 ==> area.o.y <= y <= End(area).y
  {
    BoundY(area, Trunc(End(area).y as real - dops.progress(yr, val) * area.height as real))
  }

  /** A grid line: its row and its width from the left edge of the area. */
  datatype GridLine = GridLine(y: int, width: int)

  /** A value label and the point its text starts at. */
  datatype ValueLabel = ValueLabel(value: real, at: Point)

  datatype YGridFigure = YGridFigure(lines: seq<GridLine>, labels: seq<ValueLabel>)

  /** The label column as written: 7 pixels from the area's TOP edge, used
      as an x coordinate. */
  function LabelXAsWritten(area: Rect): int { area.o.y + 7 }

  /** The label column evidently intended: 7 pixels right of the area's left
      edge. */
  function LabelX(area: Rect): (x: int)
    ensures area.width >= 7 ==> area.o.x < x <= End(area).x
  {
    area.o.x + 7
  }

  /** With an area away from the canvas origin, the column as written falls
      outside the area the scale is drawn in. */
  lemma LabelXAsWrittenLeavesArea()
    ensures var area := Rect(Point(100, 0), 50, 300);
            !IsIn(Point(LabelXAsWritten(area), area.o.y), area) && IsIn(Point(LabelX(area), area.o.y), area)
  {
  }

  function LinesOf(area: Rect, yr: Datarange.DataRange, dops: Datarange.Ops, fScale: bool, vals: seq<real>): (ls: seq<GridLine>)
    ensures |ls| == |vals|
    ensures forall k :: 0 <= k < |ls| ==> ls[k].y == Row(area, yr, dops, vals[k])
    ensures forall k :: 0 <= k < |ls| ==> ls[k].width == if fScale then 10 else area.width
  {
    seq(|vals|, k requires 0 <= k < |vals| => GridLine(Row(area, yr, dops, vals[k]), if fScale then 10 else area.width))
  }

  function LabelsOf(area: Rect, yr: Datarange.DataRange, dops: Datarange.Ops, vals: seq<real>): (ls: seq<ValueLabel>)
    ensures |ls| == |vals|
    ensures forall k :: 0 <= k < |ls| ==> ls[k].value == vals[k]
    ensures forall k :: 0 <= k < |ls| ==> ls[k].at == Point(area.o.x + 7, Row(area, yr, dops, vals[k]) + 1)
  {
    seq(|vals|, k requires 0 <= k < |vals| => ValueLabel(vals[k], Point(LabelX(area), Row(area, yr, dops, vals[k]) + 1)))
  }

  function ValuesOf(labels: seq<ValueLabel>): (vs: seq<real>)
    ensures |vs| == |labels| && forall k :: 0 <= k < |vs| ==> vs[k] == labels[k].value
  {
    seq(|labels|, k requires 0 <= k < |labels| => labels[k].value)
  }

  /** The lines and labels of a value range: one per tick from High down to
      Low, at the tick's row. */
  method Grid(area: Rect, yr: Datarange.DataRange, dops: Datarange.Ops, fScale: bool) returns (g: YGridFigure)
    ensures fScale ==> |g.lines| == |g.labels|
    ensures !fScale ==> g.labels == []
    ensures yr.stepSize <= 0.0 || yr.high < yr.low ==> g.lines == []
    ensures forall k :: 0 <= k < |g.lines| ==>
      && g.lines[k].width == (if fScale then 10 else area.width)
      && (area.height >= 0 ==> area.o.y <= g.lines[k].y <= End(area).y)
      && yr.low <= Tick(yr, k)
      && g.lines[k].y == Row(area, yr, dops, Tick(yr, k))
    ensures fScale ==> StepsDown(ValuesOf(g.labels), yr.high, yr.stepSize)
    ensures forall k :: 0 <= k < |g.labels| ==>
      && yr.low <= g.labels[k].value <= yr.high
      && g.labels[k].at == Point(area.o.x + 7, g.lines[k].y + 1)
      && g.labels[k].value == Tick(yr, k)
    ensures yr.stepSize > 0.0 && yr.high >= yr.low ==> |g.lines| > 0 && Tick(yr, |g.lines|) < yr.low
  {
    var vals := Ticks(yr);
    TicksClosedForm(yr, vals);
    var lines := LinesOf(area, yr, dops, fScale, vals);
    var labels := if fScale then LabelsOf(area, yr, dops, vals) else [];
    g := YGridFigure(lines, labels);
  }

  /** OnRedraw of the value grid. The value range is that of the chart's
      selected time slice, whatever the axis range the guard inspects; it is
      remembered only when the grid is drawn. */
  method OnRedraw(series: DataList, range: Option<TimeSlice>, chartSel: TimeSlice, area: Rect,
                  fScale: bool, lastyrange: Datarange.DataRange, ops: Ops, dops: Datarange.Ops)
    returns (newLast: Datarange.DataRange, p: Plot<YGridFigure>)
    ensures !p.NonFinite?
    ensures p.NotDrawn? <==> !CanProceed(IsEmpty(series), range)
    ensures p.NotDrawn? ==> newLast == lastyrange
    ensures p.Drawn? ==> newLast == DataRange(series, ops, dops, Some(chartSel), 10)
    ensures p.Drawn? ==>
      var yr := newLast;
      && (fScale ==> |p.figure.lines| == |p.figure.labels|)
      && (!fScale ==> p.figure.labels == [])
      && (yr.stepSize <= 0.0 || yr.high < yr.low ==> p.figure.lines == [])
      && (forall k :: 0 <= k < |p.figure.lines| ==>
            && p.figure.lines[k].width == (if fScale then 10 else area.width)
            && (area.height >= 0 ==> area.o.y <= p.figure.lines[k].y <= End(area).y))
      && (fScale ==> StepsDown(ValuesOf(p.figure.labels), yr.high, yr.stepSize))
      && (forall k :: 0 <= k < |p.figure.labels| ==>
            && yr.low <= p.figure.labels[k].value <= yr.high
            && p.figure.labels[k].at == Point(area.o.x + 7, p.figure.lines[k].y + 1))
    // line k is drawn at the row of High - k * step, every such value down to
    // Low gets its line, and the labels name the same values
    ensures p.Drawn? ==>
      var yr := newLast;
      forall k :: 0 <= k < |p.figure.lines| ==>
        && yr.low <= Tick(yr, k)
        && p.figure.lines[k].y == Row(area, yr, dops, Tick(yr, k))
    ensures p.Drawn? ==>
      var yr := newLast;
      yr.stepSize > 0.0 && yr.high >= yr.low ==>
        |p.figure.lines| > 0 && Tick(yr, |p.figure.lines|) < yr.low
    ensures p.Drawn? && fScale ==>
      var yr := newLast;
      forall k :: 0 <= k < |p.figure.labels| ==> p.figure.labels[k].value == Tick(yr, k)
  {
    if !CanProceed(IsEmpty(series), range) {
      return lastyrange, NotDrawn;
    }
    var yr := DataRange(series, ops, dops, Some(chartSel), 10);
    var g := Grid(area, yr, dops, fScale);
    newLast, p := yr, Drawn(g);
  }

  /** NeedRedraw: the value range of the selected time slice differs from the
      one last drawn. */
  predicate NeedRedraw(series: DataList, chartSel: TimeSlice, lastyrange: Datarange.DataRange,
                       ops: Ops, dops: Datarange.Ops) {
    DataRange(series, ops, dops, Some(chartSel), 10) != lastyrange
  }
}
