/** The series drawing: a polyline from the open of the first item in the
    axis range through the close of every item, optionally filled down to the
    bottom of the clip area, and the line of the selected data point. */
module SeriesLine {
  import opened Wrappers
  import opened Num
  import opened Geo2d
  import opened Timeline
  import Datarange
  import opened StockSerie
  import opened ItemScan
  import opened DrawingPrimitives
  import opened Candles

  /** The vertex at an instant and a value; instants are truncated here, not
      rounded. */
  function Vertex(sc: Scaling, t: int, v: real): Point {
    Point(sc.area.o.x + Trunc(sc.xfactor * (t - sc.range.from) as real),
          sc.area.o.y + sc.area.height - Trunc(sc.yfactor * (v - sc.low)))
  }

  function OpenVertex(sc: Scaling, d: DataStock): Point { Vertex(sc, d.ts.from, d.open) }

  function CloseVertex(sc: Scaling, d: DataStock): Point { Vertex(sc, d.ts.to, d.close) }

  /** The path loop: the first item adds its open vertex, every item its close
      vertex. In fill mode the path is closed through the bottom of the clip
      area below the last close and below the first open; with no item both
      of those columns keep their zero value. */
  method Path(sc: Scaling, clip: Rect, items: seq<DataStock>, fill: bool) returns (vertices: seq<Point>, closing: seq<Point>)
    ensures |items| == 0 ==> vertices == []
    ensures |items| > 0 ==> |vertices| == |items| + 1 && vertices[0] == OpenVertex(sc, items[0])
    ensures forall k :: 0 <= k < |items| ==> vertices[k + 1] == CloseVertex(sc, items[k])
    ensures !fill ==> closing == []
    ensures fill && |items| > 0 ==>
      closing == [Point(vertices[|vertices| - 1].x, End(clip).y), Point(vertices[0].x, End(clip).y)]
    ensures fill && |items| == 0 ==> closing == [Point(0, End(clip).y), Point(0, End(clip).y)]
  {
    var x0, xclose := 0, 0;
    var first := true;
    vertices := [];
    var i := 0;
    while i < |items|
      invariant 0 <= i <= |items|
      invariant first <==> i == 0
      invariant i == 0 ==> vertices == [] && x0 == 0 && xclose == 0
      invariant i > 0 ==> |vertices| == i + 1 && vertices[0] == OpenVertex(sc, items[0]) && x0 == vertices[0].x
      invariant i > 0 ==> xclose == vertices[i].x
      invariant forall k :: 0 <= k < i ==> vertices[k + 1] == CloseVertex(sc, items[k])
    {
      var item := items[i];
      if first {
        first := false;
        var v := OpenVertex(sc, item);
        vertices := vertices + [v];
        x0 := v.x;
      }
      var c := CloseVertex(sc, item);
      xclose := c.x;
      vertices := vertices + [c];
      i := i + 1;
    }
    closing := if fill then [Point(xclose, End(clip).y), Point(x0, End(clip).y)] else [];
  }

  datatype SeriesFigure = SeriesFigure(selLine: Option<int>, vertices: seq<Point>, closing: seq<Point>)

  /** The scaling of a series redraw: the clip area less 5 pixels at the top
      and at the bottom, the pixels per nanosecond of the axis range and per
      unit of its price range, and that range's Low at the bottom. */
  function SeriesScaling(series: DataList, range: TimeSlice, clip: Rect, ops: Ops, dops: Datarange.Ops): (sc: Scaling)
    requires DurationOf(range).d != 0 && Datarange.Delta(DataRange(series, ops, dops, Some(range), 10)) != 0.0
    ensures sc.area == Shrink(clip, 0, 5) && sc.range == range
    ensures sc.xfactor * DurationOf(range).d as real == sc.area.width as real
    ensures sc.yfactor * Datarange.Delta(DataRange(series, ops, dops, Some(range), 10)) == sc.area.height as real
    ensures sc.low == DataRange(series, ops, dops, Some(range), 10).low
  {
    var area := Shrink(clip, 0, 5);
    var yr := DataRange(series, ops, dops, Some(range), 10);
    Scaling(area, range, area.width as real / DurationOf(range).d as real, area.height as real / Datarange.Delta(yr), yr.low)
  }

  /** OnRedraw of the series: guard, clip area less 5 pixels top and bottom,
      scale factors from the price range, the path over the visited items.
      The selected data point is remembered whenever the guard passes. */
  method OnRedraw(series: DataList, range: Option<TimeSlice>, clip: Rect, selected: Option<DataStock>, fill: bool,
                  lastSelected: Option<DataStock>, ops: Ops, dops: Datarange.Ops)
    returns (newLast: Option<DataStock>, p: Plot<SeriesFigure>)
    ensures newLast == if CanProceed(IsEmpty(series), range) then selected else lastSelected
    ensures p.NotDrawn? <==> !CanProceed(IsEmpty(series), range)
    ensures p.NonFinite? <==> (CanProceed(IsEmpty(series), range) &&
      (DurationOf(range.value).d == 0 || Datarange.Delta(DataRange(series, ops, dops, range, 10)) == 0.0))
    ensures p.Drawn? ==>
      var v := Visited(SeriesRule, range.value, series.items);
      && |p.figure.vertices| == (if |v| == 0 then 0 else |v| + 1)
      && (fill <==> |p.figure.closing| == 2)
    // the figure itself: the selection line, the open vertex of the first
    // visited item, the close vertex of each, and the fill's closing points
    ensures p.Drawn? ==>
      var v := Visited(SeriesRule, range.value, series.items);
      var sc := SeriesScaling(series, range.value, clip, ops, dops);
      var f := p.figure;
      && f.selLine == SelectionLine(sc.area, range.value, sc.xfactor, ops, selected)
      && (|v| > 0 ==> f.vertices[0] == OpenVertex(sc, v[0]))
      && (forall k :: 0 <= k < |v| ==> f.vertices[k + 1] == CloseVertex(sc, v[k]))
      && (!fill ==> f.closing == [])
      && (fill && |v| > 0 ==>
            f.closing == [Point(f.vertices[|f.vertices| - 1].x, End(clip).y), Point(f.vertices[0].x, End(clip).y)])
      && (fill && |v| == 0 ==> f.closing == [Point(0, End(clip).y), Point(0, End(clip).y)])
  {
    if !CanProceed(IsEmpty(series), range) {
      return lastSelected, NotDrawn;
    }
    newLast := selected;
    var dur := DurationOf(range.value).d;
    var yr := DataRange(series, ops, dops, range, 10);
    if dur == 0 || Datarange.Delta(yr) == 0.0 {
      return newLast, NonFinite;
    }
    var sc := SeriesScaling(series, range.value, clip, ops, dops);
    var vertices, closing := Path(sc, clip, Visited(SeriesRule, range.value, series.items), fill);
    p := Drawn(SeriesFigure(SelectionLine(sc.area, range.value, sc.xfactor, ops, selected), vertices, closing));
  }

  /** The series asks to be redrawn when exactly one of the remembered and
      the current selected data point is missing, or both exist and the
      library does not find their slices equal. */
  predicate NeedRedraw(lastSelected: Option<DataStock>, selected: Option<DataStock>, ops: Ops) {
    || lastSelected.None? != selected.None?
    || (lastSelected.Some? && selected.Some? && ops.compare(lastSelected.value.ts, selected.value.ts) != EQUAL)
  }
}
