/** The vertical-lines drawing: a short horizontal mark under the draw area
    for every item of the series that meets the axis range, stacked upwards
    by 10 pixels for each earlier mark whose slice overlaps it. */
module VLines {
  import opened Wrappers
  import opened Num
  import opened Geo2d
  import opened Timeline
  import opened StockSerie
  import opened ItemScan
  import opened DrawingPrimitives

  /** The number of slices in `drawn` the library finds overlapping `ts`. */
  function Overlaps(ops: Ops, ts: TimeSlice, drawn: seq<TimeSlice>): (n: nat)
    ensures n <= |drawn|
    ensures (forall j :: 0 <= j < |drawn| ==> !ops.isOverlapping(ts, drawn[j])) ==> n == 0
    decreases |drawn|
  {
    if |drawn| == 0 then 0
    else Overlaps(ops, ts, drawn[..|drawn| - 1]) + (if ops.isOverlapping(ts, drawn[|drawn| - 1]) then 1 else 0)
  }

  /** The slices of some items. */
  function Slices(items: seq<DataStock>): (s: seq<TimeSlice>)
    ensures |s| == |items|
    decreases |items|
  {
    if |items| == 0 then [] else Slices(items[..|items| - 1]) + [items[|items| - 1].ts]
  }

  /** The number of items drawn before the k-th that overlap it. */
  function OverlapAt(ops: Ops, v: seq<DataStock>, k: nat): nat
    requires k < |v|
  {
    Overlaps(ops, v[k].ts, Slices(v[..k]))
  }

  /** A mark: from column `x` to column `xEnd` on row `y`, with the label's
      anchor when the item has a label. */
  datatype Mark = Mark(item: DataStock, x: int, xEnd: int, y: int, overlap: nat, labelAt: Option<Point>)

  /** The mark of a drawn item overlapping `overlap` earlier drawn slices. */
  function MarkAt(area: Rect, range: TimeSlice, item: DataStock, overlap: nat): Mark
    requires DurationOf(range).d != 0
  {
    var xfactor := area.width as real / DurationOf(range).d as real;
    var w := Max(1, Round(xfactor * DurationOf(item.ts).d as real));
    var x := XTime(area, range, item.ts.from).value;
    var y := area.o.y + area.height + 5 - 10 * overlap;
    Mark(item, x, x + w, y, overlap, if item.labelText != "" then Some(Point(x, y - 1)) else None)
  }

  /** A mark starts at the item's xTime column, is at least one pixel long,
      and sits 5 pixels below the draw area, raised 10 pixels per overlap;
      a labelled item's label is anchored one row above the mark's start. */
  lemma MarkGeometry(area: Rect, range: TimeSlice, item: DataStock, overlap: nat)
    requires DurationOf(range).d != 0
    ensures var m := MarkAt(area, range, item, overlap);
      && m.item == item && m.overlap == overlap
      && m.y == area.o.y + area.height + 5 - 10 * overlap
      && m.x == XTime(area, range, item.ts.from).value && m.xEnd >= m.x + 1
      && (m.labelAt.Some? <==> item.labelText != "")
      && (m.labelAt.Some? ==> m.labelAt.value == Point(m.x, m.y - 1))
  {
  }

  /** The inner loop: counts the drawn slices overlapping `ts`. */
  method CountOverlaps(ops: Ops, ts: TimeSlice, drawn: seq<TimeSlice>) returns (overlap: nat)
    ensures overlap == Overlaps(ops, ts, drawn)
  {
    overlap := 0;
    var j := 0;
    while j < |drawn|
      invariant 0 <= j <= |drawn|
      invariant overlap == Overlaps(ops, ts, drawn[..j])
    {
      assert drawn[..j + 1][..j] == drawn[..j];
      if ops.isOverlapping(ts, drawn[j]) {
        overlap := overlap + 1;
      }
      j := j + 1;
    }
    assert drawn[..j] == drawn;
  }

  lemma SlicesStep(v: seq<DataStock>, i: nat)
    requires i < |v|
    ensures Slices(v[..i + 1]) == Slices(v[..i]) + [v[i].ts]
  {
    assert v[..i + 1][..i] == v[..i];
  }

  /** The loop over the drawn items. Every drawn item's slice joins the list
      the later items are checked against. */
  method Marks(area: Rect, range: TimeSlice, ops: Ops, v: seq<DataStock>) returns (marks: seq<Mark>)
    requires DurationOf(range).d != 0
    ensures |marks| == |v|
    ensures forall k :: 0 <= k < |v| ==> marks[k] == MarkAt(area, range, v[k], OverlapAt(ops, v, k))
  {
    var drawnts: seq<TimeSlice> := [];
    marks := [];
    var i := 0;
    while i < |v|
      invariant 0 <= i <= |v|
      invariant drawnts == Slices(v[..i])
      invariant |marks| == i
      invariant forall k :: 0 <= k < i ==> marks[k] == MarkAt(area, range, v[k], OverlapAt(ops, v, k))
    {
      var item := v[i];
      var overlap := CountOverlaps(ops, item.ts, drawnts);
      assert overlap == OverlapAt(ops, v, i);
      marks := marks + [MarkAt(area, range, item, overlap)];
      SlicesStep(v, i);
      drawnts := drawnts + [item.ts];
      i := i + 1;
    }
  }

  /** onRedraw of the vertical lines. The source has no guard: the axis range
      must exist, and a zero duration divides by zero. */
  method OnRedraw(series: DataList, range: TimeSlice, area: Rect, ops: Ops) returns (p: Plot<seq<Mark>>)
    ensures !p.NotDrawn?
    ensures p.NonFinite? <==> DurationOf(range).d == 0
    ensures p.Drawn? ==>
      var v := Visited(VLineRule, range, series.items);
      && |p.figure| == |v|
      && forall k :: 0 <= k < |v| ==> p.figure[k] == MarkAt(area, range, v[k], OverlapAt(ops, v, k))
  {
    if DurationOf(range).d == 0 {
      return NonFinite;
    }
    var marks := Marks(area, range, ops, Visited(VLineRule, range, series.items));
    p := Drawn(marks);
  }

  /** The vertical lines ask to be redrawn only when they depend on the time
      selection and the chart's time zone changed since their last redraw. */
  predicate NeedRedraw(timeSelDependant: bool, lastLocalZone: bool, localZone: bool) {
    timeSelDependant && localZone != lastLocalZone
  }
}
