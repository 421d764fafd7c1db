/** The time grid: vertical lines at the instants the timeline library picks
    for a scan mask sized to the draw area, an optional finer secondary grid,
    and time labels that are skipped when they would run into the previous
    one. */
module XGrid {
  import opened Wrappers
  import opened Num
  import opened Geo2d
  import opened Timeline
  import opened DrawingPrimitives

  /** The minimal width, in pixels, of a main grid step. */
  const MinXStepWidth: int := 100

  /** `uint(float64(width) / 100.0)`: how many main steps fit in the width.
      The conversion of a negative float to an unsigned integer is not
      defined by Go; it is taken as 0 here. */
  function MaxScans(width: int): (n: nat)
    ensures width >= 0 ==> n == width / MinXStepWidth
    ensures width < MinXStepWidth ==> n == 0
  {
    var q := Trunc(width as real / MinXStepWidth as real);
    assert width >= 0 ==> MinXStepWidth * q <= width < MinXStepWidth * q + MinXStepWidth;
    if q < 0 then 0 else q
  }

  /** The column of an instant: its progress across the draw area, truncated. */
  function Column(area: Rect, range: TimeSlice, ops: Ops, t: int): int {
    area.o.x + Trunc(area.width as real * ops.progress(range, t))
  }

  /** A time label: its first column and its measured width. */
  datatype Label = Label(x: int, width: int)

  function LabelEnd(l: Label): int { l.x + l.width }

  /** `lastlabelend` before tick j: the end of the latest label drawn before
      it, 0 when none was. */
  function EndBefore(lab: seq<Option<Label>>, j: nat): int
    requires j <= |lab|
  {
    if j == 0 then 0
    else if lab[j - 1].Some? then LabelEnd(lab[j - 1].value)
    else EndBefore(lab, j - 1)
  }

  lemma {:induction false} EndBeforePrefix(lab: seq<Option<Label>>, ext: seq<Option<Label>>, j: nat)
    requires j <= |lab|
    ensures EndBefore(lab + ext, j) == EndBefore(lab, j)
    decreases j
  {
    if j > 0 {
      assert (lab + ext)[j - 1] == lab[j - 1];
      EndBeforePrefix(lab, ext, j - 1);
    }
  }

  /** The labelling rule: tick j, at column cols[j], gets a label starting 2
      pixels to its right exactly when that is past the end of the previous
      label. */
  ghost predicate Spaced(lab: seq<Option<Label>>, cols: seq<int>, widths: seq<int>) {
    && |lab| == |cols| == |widths|
    && (forall j :: 0 <= j < |lab| ==> (lab[j].Some? <==> cols[j] + 2 > EndBefore(lab, j)))
    && (forall j :: 0 <= j < |lab| && lab[j].Some? ==> lab[j].value == Label(cols[j] + 2, widths[j]))
  }

  /** The main-grid loop over the tick columns and the measured label widths. */
  method PlaceLabels(cols: seq<int>, widths: seq<int>) returns (lab: seq<Option<Label>>)
    requires |widths| == |cols|
    ensures Spaced(lab, cols, widths)
  {
    var lastlabelend := 0;
    lab := [];
    var j := 0;
    while j < |cols|
      invariant 0 <= j <= |cols| && |lab| == j
      invariant lastlabelend == EndBefore(lab, j)
      invariant forall i :: 0 <= i < j ==> (lab[i].Some? <==> cols[i] + 2 > EndBefore(lab, i))
      invariant forall i :: 0 <= i < j && lab[i].Some? ==> lab[i].value == Label(cols[i] + 2, widths[i])
    {
      var next: Option<Label> := None;
      if cols[j] + 2 > lastlabelend {
        next := Some(Label(cols[j] + 2, widths[j]));
        lastlabelend := cols[j] + 2 + widths[j];
      }
      forall i | 0 <= i <= j {
        EndBeforePrefix(lab, [next], i);
      }
      lab := lab + [next];
      j := j + 1;
    }
  }

  /** With non-negative widths, the end of a drawn label is never after the
      `lastlabelend` of any later tick. */
  lemma {:induction false} EndBeforeCovers(lab: seq<Option<Label>>, cols: seq<int>, widths: seq<int>, i: nat, j: nat)
    requires Spaced(lab, cols, widths) && forall k :: 0 <= k < |widths| ==> widths[k] >= 0
    requires i < j <= |lab| && lab[i].Some?
    ensures LabelEnd(lab[i].value) <= EndBefore(lab, j)
    decreases j
  {
    if j > i + 1 {
      EndBeforeCovers(lab, cols, widths, i, j - 1);
      if lab[j - 1].Some? {
        assert lab[j - 1].value.x > EndBefore(lab, j - 1);
      }
    }
  }

  /** With non-negative widths, drawn labels never overlap: each one starts
      strictly after every earlier one ends. */
  lemma LabelsNeverOverlap(lab: seq<Option<Label>>, cols: seq<int>, widths: seq<int>, i: nat, j: nat)
    requires Spaced(lab, cols, widths) && forall k :: 0 <= k < |widths| ==> widths[k] >= 0
    requires i < j < |lab| && lab[i].Some? && lab[j].Some?
    ensures LabelEnd(lab[i].value) < lab[j].value.x
  {
    EndBeforeCovers(lab, cols, widths, i, j);
  }

  datatype GridColor = MainColor | SecondColor

  /** The secondary grid: its line height (upwards from the bottom of the
      draw area) and its columns. */
  datatype SecondaryGrid = SecondaryGrid(height: int, lines: seq<int>)

  datatype XGridFigure = XGridFigure(secondary: Option<SecondaryGrid>, mainColor: GridColor,
                                     lines: seq<int>, labels: seq<Option<Label>>)

  function Columns(area: Rect, range: TimeSlice, ops: Ops, ticks: seq<int>): (cols: seq<int>)
    ensures |cols| == |ticks| && forall j :: 0 <= j < |ticks| ==> cols[j] == Column(area, range, ops, ticks[j])
  {
    seq(|ticks|, j requires 0 <= j < |ticks| => Column(area, range, ops, ticks[j]))
  }

  /** The tick before tick j, the zero time for the first. */
  function PrevTick(ticks: seq<int>, j: nat): int
    requires j < |ticks|
  {
    if j == 0 then 0 else ticks[j - 1]
  }

  /** The measured width of each tick's label; the format of a label depends
      on the previous tick. */
  function Widths(ticks: seq<int>, measure: (int, int) -> real): (w: seq<int>)
    ensures |w| == |ticks|
    ensures forall j :: 0 <= j < |ticks| ==> w[j] == Trunc(measure(ticks[j], PrevTick(ticks, j)))
  {
    seq(|ticks|, j requires 0 <= j < |ticks| => Trunc(measure(ticks[j], PrevTick(ticks, j))))
  }

  /** OnRedraw of the time grid. `measure(t, previous)` is the width of the
      label of `t` formatted relative to the previous tick. */
  method OnRedraw(seriesEmpty: bool, range: Option<TimeSlice>, area: Rect, fullGrid: bool,
                  ops: Ops, measure: (int, int) -> real) returns (p: Plot<XGridFigure>)
    ensures !p.NonFinite?
    ensures p.NotDrawn? <==> !CanProceed(seriesEmpty, range)
    ensures p.Drawn? ==>
      var mask := ops.scanMask(range.value, MaxScans(area.width));
      var ticks := ops.scan(range.value, mask);
      var f := p.figure;
      && (f.secondary.Some? <==> mask > ops.maskShortest)
      && (f.secondary.Some? ==>
            && f.secondary.value.height == (if fullGrid then -area.height else -10)
            && f.secondary.value.lines == Columns(area, range.value, ops, ops.scan(range.value, mask - 1)))
      && f.mainColor == (if fullGrid then MainColor else SecondColor)
      && f.lines == Columns(area, range.value, ops, ticks)
      && Spaced(f.labels, f.lines, Widths(ticks, measure))
  {
    if !CanProceed(seriesEmpty, range) {
      return NotDrawn;
    }
    var mask := ops.scanMask(range.value, MaxScans(area.width));
    var secondary: Option<SecondaryGrid> := None;
    if mask > ops.maskShortest {
      var fh := if fullGrid then -area.height else -10;
      secondary := Some(SecondaryGrid(fh, Columns(area, range.value, ops, ops.scan(range.value, mask - 1))));
    }
    var ticks := ops.scan(range.value, mask);
    var cols := Columns(area, range.value, ops, ticks);
    var labels := PlaceLabels(cols, Widths(ticks, measure));
    p := Drawn(XGridFigure(secondary, if fullGrid then MainColor else SecondColor, cols, labels));
  }
}
