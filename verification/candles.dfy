/** The candle drawing: one open/close body and one low/high wick per item
    of the series inside the axis range, an ending line after the last
    candle, and the line of the selected data point. */
module Candles {
  import opened Wrappers
  import opened Num
  import opened Geo2d
  import opened Timeline
  import Datarange
  import opened StockSerie
  import opened ItemScan
  import opened DrawingPrimitives

  datatype CandleColor = Green | Red | Neutral

  /** Green for a rise, red for a fall, neutral when close equals open. */
  function ColorOf(d: DataStock): (c: CandleColor)
    ensures c == Green <==> d.close > d.open
    ensures c == Red <==> d.close < d.open
    ensures c == Neutral <==> d.close == d.open
  {
    if d.close > d.open then Green else if d.close < d.open then Red else Neutral
  }

  /** `int(float64(w) * 0.1)`: the padding on each side of a candle or bar. */
  function Padding(w: int): (p: int)
    requires w >= 1
    ensures p == w / 10
    ensures 0 <= p && 2 * p < w
  {
    var n := Trunc(w as real * 0.1);
    assert 10 * n <= w < 10 * n + 10;
    n
  }

  /** What a redraw computes once: the draw area, the axis range, the two
      scale factors and the value drawn at the bottom of the area. */
  datatype Scaling = Scaling(area: Rect, range: TimeSlice, xfactor: real, yfactor: real, low: real)

  /** The columns of an item: rounded start, rounded width of at least one
      pixel, then the padding taken off both sides. The result keeps at least
      one pixel and never leaves the unpadded span. */
  function Slot(sc: Scaling, d: DataStock): (r: Rect)
    ensures var x0 := sc.area.o.x + Round(sc.xfactor * (d.ts.from - sc.range.from) as real);
            var w0 := Max(1, Round(sc.xfactor * DurationOf(d.ts).d as real));
            && r.width >= 1
            && r.o.x == x0 + w0 / 10 && r.width == w0 - 2 * (w0 / 10)
            && x0 <= r.o.x && End(r).x <= x0 + w0
  {
    var x0 := sc.area.o.x + Round(sc.xfactor * (d.ts.from - sc.range.from) as real);
    var w0 := Max(1, Round(sc.xfactor * DurationOf(d.ts).d as real));
    var p := Padding(w0);
    Rect(Point(x0 + p, 0), w0 - 2 * p, 0)
  }

  /** The row, counted down from the bottom of the area, of a value. */
  function Row(sc: Scaling, v: real): int {
    sc.area.o.y + sc.area.height - Trunc(sc.yfactor * (v - sc.low))
  }

  /** A rectangle `width` pixels wide standing on canvas row `row` and rising
      `h` pixels (hanging below it for a negative `h`), made positive: a zero
      rise is one pixel high. */
  function Upright(x: int, width: int, row: int, h: int): (b: Rect)
    requires width >= 1
    ensures b.o.x == x && b.width == width
    ensures h > 0 ==> b.height == h && End(b).y == row
    ensures h < 0 ==> b.height == -h && b.o.y == row
    ensures h != 0 ==> InSpan(row, b.o.y, b.height) && InSpan(row - h, b.o.y, b.height)
    ensures h == 0 ==> b.o.y == row && b.height == 1
  {
    FlipPositive(Rect(Point(x, row), width, -h))
  }

  /** The open/close body before clipping: the slot's columns, rising from
      the open row by the scaled close-open difference (a flat body is one
      pixel high). */
  function BodyRect(sc: Scaling, d: DataStock): (b: Rect)
    ensures b.o.x == Slot(sc, d).o.x && b.width == Slot(sc, d).width
    ensures var h := Trunc(sc.yfactor * (d.close - d.open));
      && (h != 0 ==> b.height == (if h < 0 then -h else h) && InSpan(Row(sc, d.open), b.o.y, b.height)
                     && InSpan(Row(sc, d.open) - h, b.o.y, b.height))
      && (h == 0 ==> b.o.y == Row(sc, d.open) && b.height == 1)
  {
    var slot := Slot(sc, d);
    Upright(slot.o.x, slot.width, Row(sc, d.open), Trunc(sc.yfactor * (d.close - d.open)))
  }

  /** The rectangle the walk keeps in `rcandle` after an item: for a slot
      wider than 2 pixels, the open/close body clipped by the draw area (None
      when it misses the area); otherwise the bare slot. */
  function CandleRect(sc: Scaling, d: DataStock): (r: Option<Rect>)
    ensures Slot(sc, d).width <= 2 ==> r == Some(Slot(sc, d))
    ensures Slot(sc, d).width > 2 && r.Some? ==> Within(r.value, sc.area) && r.value.width <= Slot(sc, d).width
    ensures Slot(sc, d).width > 2 ==> (r.None? <==> Disjoint(sc.area, BodyRect(sc, d)))
    ensures Slot(sc, d).width > 2 && r.Some? ==>
      forall pt :: IsIn(pt, r.value) <==> IsIn(pt, sc.area) && IsIn(pt, BodyRect(sc, d))
  {
    var slot := Slot(sc, d);
    if slot.width > 2 then
      AndNoneIffDisjoint(sc.area, BodyRect(sc, d));
      AndIsIntersectionAll(sc.area, BodyRect(sc, d));
      And(sc.area, BodyRect(sc, d))
    else Some(slot)
  }

  /** The wick's width: the candle's padding, at least one pixel. */
  function WickWidth(sc: Scaling, d: DataStock): (ww: int)
    ensures ww >= 1
  {
    Max(Padding(Max(1, Round(sc.xfactor * DurationOf(d.ts).d as real))), 1)
  }

  /** The wick's column: the clip area's left edge plus the progress of the
      item's middle through the axis range, scaled to the clip width. */
  function WickCentre(sc: Scaling, clip: Rect, ops: Ops, d: DataStock): int {
    clip.o.x + Trunc(clip.width as real * ops.progress(sc.range, ops.middle(d.ts)))
  }

  /** The low/high wick before clipping: as wide as the padding (at least
      one pixel), centred on the column of the item's middle across the clip
      area, rising from the low row by the scaled high-low range. */
  function WickRect(sc: Scaling, clip: Rect, ops: Ops, d: DataStock): (b: Rect)
    ensures b.width == WickWidth(sc, d)
    ensures b.o.x == WickCentre(sc, clip, ops, d) - WickWidth(sc, d) / 2
    ensures b.o.x <= WickCentre(sc, clip, ops, d) <= End(b).x
    ensures var h := Trunc(sc.yfactor * (d.high - d.low));
      && (h != 0 ==> b.height == (if h < 0 then -h else h) && InSpan(Row(sc, d.low), b.o.y, b.height)
                     && InSpan(Row(sc, d.low) - h, b.o.y, b.height))
      && (h == 0 ==> b.o.y == Row(sc, d.low) && b.height == 1)
  {
    var ww := WickWidth(sc, d);
    Upright(WickCentre(sc, clip, ops, d) - GoDiv(ww, 2), ww, Row(sc, d.low), Trunc(sc.yfactor * (d.high - d.low)))
  }

  /** The wick as drawn: clipped by the draw area, and missing when it lies
      outside it. */
  function Wick(sc: Scaling, clip: Rect, ops: Ops, d: DataStock): (r: Option<Rect>)
    ensures r.Some? ==> Within(r.value, sc.area)
    ensures r.Some? ==> r.value.width <= WickRect(sc, clip, ops, d).width
    ensures r.None? <==> Disjoint(sc.area, WickRect(sc, clip, ops, d))
    ensures r.Some? ==> forall pt :: IsIn(pt, r.value) <==> IsIn(pt, sc.area) && IsIn(pt, WickRect(sc, clip, ops, d))
  {
    var b := WickRect(sc, clip, ops, d);
    AndNoneIffDisjoint(sc.area, b);
    AndIsIntersectionAll(sc.area, b);
    And(sc.area, b)
  }

  /** What a drawn item leaves on the canvas: its colour, its body when the
      slot is wide enough, and its wick when it meets the draw area. */
  datatype CandleShape = CandleShape(item: DataStock, color: CandleColor, body: Option<Rect>, wick: Option<Rect>)

  predicate ShapeWithin(s: CandleShape, area: Rect) {
    (s.body.Some? ==> Within(s.body.value, area)) && (s.wick.Some? ==> Within(s.wick.value, area))
  }

  /** The loop state after some items: the shapes so far, the last item drawn
      and the last candle rectangle. */
  datatype Walk = Walk(shapes: seq<CandleShape>, last: Option<DataStock>, rcandle: Option<Rect>)

  /** The shape an item leaves when its candle rectangle exists: its colour,
      the clipped body for a slot wider than 2 pixels, and its wick. */
  function ShapeOf(sc: Scaling, clip: Rect, ops: Ops, d: DataStock): CandleShape {
    CandleShape(d, ColorOf(d), if Slot(sc, d).width > 2 then CandleRect(sc, d) else None, Wick(sc, clip, ops, d))
  }

  /** One pass of the loop body. A body that misses the area skips the item
      entirely: no wick, `last` unchanged, but `rcandle` left nil. */
  function Step(sc: Scaling, clip: Rect, ops: Ops, w: Walk, d: DataStock): (r: Walk)
    ensures r.rcandle == CandleRect(sc, d)
    ensures CandleRect(sc, d).None? ==> r.shapes == w.shapes && r.last == w.last
    ensures CandleRect(sc, d).Some? ==> |r.shapes| == |w.shapes| + 1 && r.last == Some(d)
    ensures forall k :: 0 <= k < |w.shapes| ==> k < |r.shapes| && r.shapes[k] == w.shapes[k]
    ensures CandleRect(sc, d).Some? ==> var sh := r.shapes[|w.shapes|];
      && sh.item == d && sh.color == ColorOf(d) && ShapeWithin(sh, sc.area)
      && (sh.body.Some? <==> Slot(sc, d).width > 2)
      && (sh.body.Some? ==> sh.body == CandleRect(sc, d))
      && sh.wick == Wick(sc, clip, ops, d)
      && sh == ShapeOf(sc, clip, ops, d)
  {
    var r := CandleRect(sc, d);
    if r.None? then w.(rcandle := None)
    else Walk(w.shapes + [ShapeOf(sc, clip, ops, d)], Some(d), r)
  }

  /** A shape the walk may leave for `items`: it draws one of them, in that
      item's colour, inside the draw area, with a body only for a slot wider
      than 2 pixels. */
  predicate ShapeOfItems(sc: Scaling, items: seq<DataStock>, sh: CandleShape) {
    && sh.item in items
    && sh.color == ColorOf(sh.item)
    && ShapeWithin(sh, sc.area)
    && (sh.body.Some? ==> Slot(sc, sh.item).width > 2)
  }

  predicate AllShapesOfItems(sc: Scaling, items: seq<DataStock>, shapes: seq<CandleShape>) {
    forall k :: 0 <= k < |shapes| ==> ShapeOfItems(sc, items, shapes[k])
  }

  lemma ShapeOfPrefix(sc: Scaling, items: seq<DataStock>, n: nat, sh: CandleShape)
    requires n <= |items| && ShapeOfItems(sc, items[..n], sh)
    ensures ShapeOfItems(sc, items, sh)
  {
    assert sh.item in items;
  }

  lemma ShapeOfLast(sc: Scaling, items: seq<DataStock>, sh: CandleShape)
    requires |items| > 0 && sh.item == items[|items| - 1] && sh.color == ColorOf(sh.item)
    requires ShapeWithin(sh, sc.area) && (sh.body.Some? ==> Slot(sc, sh.item).width > 2)
    ensures ShapeOfItems(sc, items, sh)
  {
  }

  /** The loop over the visited items, as a fold over their prefixes. */
  function WalkOf(sc: Scaling, clip: Rect, ops: Ops, items: seq<DataStock>): (w: Walk)
    ensures |w.shapes| <= |items|
    ensures w.rcandle == (if |items| == 0 then None else CandleRect(sc, items[|items| - 1]))
    ensures w.last.Some? <==> |w.shapes| > 0
    ensures w.last.Some? ==> w.last.value == w.shapes[|w.shapes| - 1].item
    ensures w.rcandle.Some? ==> w.last == Some(items[|items| - 1])
    decreases |items|
  {
    if |items| == 0 then Walk([], None, None)
    else Step(sc, clip, ops, WalkOf(sc, clip, ops, items[..|items| - 1]), items[|items| - 1])
  }

  /** One step of the walk over the last item keeps every shape drawn from
      the items. */
  lemma StepShapesOfItems(sc: Scaling, clip: Rect, ops: Ops, w: Walk, items: seq<DataStock>)
    requires |items| > 0 && AllShapesOfItems(sc, items[..|items| - 1], w.shapes)
    ensures AllShapesOfItems(sc, items, Step(sc, clip, ops, w, items[|items| - 1]).shapes)
  {
    var n := |items| - 1;
    var r := Step(sc, clip, ops, w, items[n]);
    forall k | 0 <= k < |r.shapes|
      ensures ShapeOfItems(sc, items, r.shapes[k])
    {
      if k < |w.shapes| {
        ShapeOfPrefix(sc, items, n, w.shapes[k]);
      } else {
        ShapeOfLast(sc, items, r.shapes[k]);
      }
    }
  }

  /** Every shape the walk leaves draws one of the visited items, in its
      colour, inside the draw area. */
  lemma {:induction false} WalkShapesOfItems(sc: Scaling, clip: Rect, ops: Ops, items: seq<DataStock>)
    ensures AllShapesOfItems(sc, items, WalkOf(sc, clip, ops, items).shapes)
    decreases |items|
  {
    if |items| > 0 {
      WalkShapesOfItems(sc, clip, ops, items[..|items| - 1]);
      StepShapesOfItems(sc, clip, ops, WalkOf(sc, clip, ops, items[..|items| - 1]), items);
    }
  }

  /** The walk over more items keeps the shapes of the walk over all but
      the last. */
  lemma WalkKeeps(sc: Scaling, clip: Rect, ops: Ops, items: seq<DataStock>, sh: CandleShape)
    requires |items| > 0 && sh in WalkOf(sc, clip, ops, items[..|items| - 1]).shapes
    ensures sh in WalkOf(sc, clip, ops, items).shapes
  {
    var w := WalkOf(sc, clip, ops, items[..|items| - 1]);
    var k :| 0 <= k < |w.shapes| && w.shapes[k] == sh;
    assert WalkOf(sc, clip, ops, items).shapes[k] == sh;
  }

  /** The last item, when its candle rectangle exists, leaves its shape. */
  lemma WalkAdds(sc: Scaling, clip: Rect, ops: Ops, items: seq<DataStock>)
    requires |items| > 0 && CandleRect(sc, items[|items| - 1]).Some?
    ensures ShapeOf(sc, clip, ops, items[|items| - 1]) in WalkOf(sc, clip, ops, items).shapes
  {
    var w := WalkOf(sc, clip, ops, items[..|items| - 1]);
    assert WalkOf(sc, clip, ops, items).shapes[|w.shapes|] == ShapeOf(sc, clip, ops, items[|items| - 1]);
  }

  /** Completeness of the walk: every item whose candle rectangle exists
      leaves its shape among the walk's shapes. */
  lemma {:induction false} WalkComplete(sc: Scaling, clip: Rect, ops: Ops, items: seq<DataStock>, j: nat)
    requires j < |items| && CandleRect(sc, items[j]).Some?
    ensures ShapeOf(sc, clip, ops, items[j]) in WalkOf(sc, clip, ops, items).shapes
    decreases |items|
  {
    var n := |items| - 1;
    if j < n {
      var prefix := items[..n];
      var sh := ShapeOf(sc, clip, ops, items[j]);
      assert sh in WalkOf(sc, clip, ops, prefix).shapes by {
        assert prefix[j] == items[j];
        WalkComplete(sc, clip, ops, prefix, j);
      }
      WalkKeeps(sc, clip, ops, items, sh);
    } else {
      WalkAdds(sc, clip, ops, items);
    }
  }

  lemma WalkCompleteAll(sc: Scaling, clip: Rect, ops: Ops, items: seq<DataStock>)
    ensures forall j :: 0 <= j < |items| && CandleRect(sc, items[j]).Some? ==>
      ShapeOf(sc, clip, ops, items[j]) in WalkOf(sc, clip, ops, items).shapes
  {
    forall j | 0 <= j < |items| && CandleRect(sc, items[j]).Some?
      ensures ShapeOf(sc, clip, ops, items[j]) in WalkOf(sc, clip, ops, items).shapes
    {
      WalkComplete(sc, clip, ops, items, j);
    }
  }

  /** The ending line: its column, one past the last candle's right edge for
      the label, and the instant the label shows. */
  datatype Ending = Ending(x: int, at: int)

  function EndingOf(w: Walk): (e: Option<Ending>)
    ensures e.Some? <==> w.last.Some? && w.rcandle.Some?
    ensures e.Some? ==> e.value == Ending(End(w.rcandle.value).x, w.last.value.ts.to)
  {
    if w.last.Some? && w.rcandle.Some? then Some(Ending(End(w.rcandle.value).x, w.last.value.ts.to)) else None
  }

  /** The ending line is drawn exactly when the last visited item left a
      candle rectangle, and it ends that item. */
  lemma EndingFollowsLastItem(sc: Scaling, clip: Rect, ops: Ops, items: seq<DataStock>)
    ensures var e := EndingOf(WalkOf(sc, clip, ops, items));
            && (e.Some? <==> |items| > 0 && CandleRect(sc, items[|items| - 1]).Some?)
            && (e.Some? ==> (e.value.at == items[|items| - 1].ts.to
                             && e.value.x == End(CandleRect(sc, items[|items| - 1]).value).x))
  {
  }

  datatype CandlesFigure = CandlesFigure(selLine: Option<int>, shapes: seq<CandleShape>, ending: Option<Ending>)

  /** The scaling of a redraw: the main draw area, the pixels per
      nanosecond of the axis range and per unit of its price range, and the
      price range's Low at the bottom. */
  function CandleScaling(series: DataList, range: TimeSlice, clip: Rect, ops: Ops, dops: Datarange.Ops): (sc: Scaling)
    requires DurationOf(range).d != 0 && Datarange.Delta(DataRange(series, ops, dops, Some(range), 10)) != 0.0
    ensures sc.area == MainDrawArea(clip) && sc.range == range
    ensures sc.xfactor * DurationOf(range).d as real == sc.area.width as real
    ensures sc.yfactor * Datarange.Delta(DataRange(series, ops, dops, Some(range), 10)) == sc.area.height as real
    ensures sc.low == DataRange(series, ops, dops, Some(range), 10).low
  {
    var area := MainDrawArea(clip);
    var yr := DataRange(series, ops, dops, Some(range), 10);
    Scaling(area, range, area.width as real / DurationOf(range).d as real, area.height as real / Datarange.Delta(yr), yr.low)
  }

  /** What a redraw draws for the visited items: the selection line, the
      shapes of the walk and its ending line. Every shape draws one of the
      items inside the area; every item whose candle rectangle exists is
      drawn; the ending follows the last item. */
  function FigureOf(sc: Scaling, clip: Rect, ops: Ops, items: seq<DataStock>, selected: Option<DataStock>): (f: CandlesFigure)
    ensures f.selLine == SelectionLine(sc.area, sc.range, sc.xfactor, ops, selected)
    ensures |f.shapes| <= |items|
    ensures forall k :: 0 <= k < |f.shapes| ==> ShapeWithin(f.shapes[k], sc.area) && f.shapes[k].item in items
    ensures forall j :: 0 <= j < |items| && CandleRect(sc, items[j]).Some? ==> ShapeOf(sc, clip, ops, items[j]) in f.shapes
    ensures f.ending.Some? <==> |items| > 0 && CandleRect(sc, items[|items| - 1]).Some?
    ensures f.ending.Some? ==>
      f.ending.value == Ending(End(CandleRect(sc, items[|items| - 1]).value).x, items[|items| - 1].ts.to)
  {
    var w := WalkOf(sc, clip, ops, items);
    WalkShapesOfItems(sc, clip, ops, items);
    WalkCompleteAll(sc, clip, ops, items);
    EndingFollowsLastItem(sc, clip, ops, items);
    CandlesFigure(SelectionLine(sc.area, sc.range, sc.xfactor, ops, selected), w.shapes, EndingOf(w))
  }

  /** OnRedraw of the candles: guard, main draw area, scale factors from the
      price range of the axis range, then the figure of the visited items. */
  function OnRedraw(series: DataList, range: Option<TimeSlice>, clip: Rect, selected: Option<DataStock>,
                    ops: Ops, dops: Datarange.Ops): (p: Plot<CandlesFigure>)
    ensures p.NotDrawn? <==> !CanProceed(IsEmpty(series), range)
    ensures p.NonFinite? <==> (CanProceed(IsEmpty(series), range) &&
      (DurationOf(range.value).d == 0 || Datarange.Delta(DataRange(series, ops, dops, range, 10)) == 0.0))
    ensures p.Drawn? ==> forall k :: 0 <= k < |p.figure.shapes| ==> ShapeWithin(p.figure.shapes[k], MainDrawArea(clip))
    ensures p.Drawn? ==> |p.figure.shapes| <= |Visited(CandleRule, range.value, series.items)|
    ensures p.Drawn? ==> forall k :: 0 <= k < |p.figure.shapes| ==>
      p.figure.shapes[k].item in Visited(CandleRule, range.value, series.items)
    ensures p.Drawn? ==> p.figure == FigureOf(CandleScaling(series, range.value, clip, ops, dops), clip, ops,
                                              Visited(CandleRule, range.value, series.items), selected)
  {
    if !CanProceed(IsEmpty(series), range) then NotDrawn
    else
      var dur := DurationOf(range.value).d;
      var yr := DataRange(series, ops, dops, range, 10);
      if dur == 0 || Datarange.Delta(yr) == 0.0 then NonFinite
      else
        var sc := CandleScaling(series, range.value, clip, ops, dops);
        Drawn(FigureOf(sc, clip, ops, Visited(CandleRule, range.value, series.items), selected))
  }

  /** The candles always ask to be redrawn. */
  function NeedRedraw(): (need: bool)
    ensures need
  {
    true
  }
}
