/** The bar drawing used for volumes: one bar per item of the series in the
    axis range, rising from the bottom of the draw area. */
module Bars {
  import opened Wrappers
  import opened Num
  import opened Geo2d
  import opened Timeline
  import Datarange
  import opened StockSerie
  import opened ItemScan
  import opened DrawingPrimitives
  import opened Candles

  /** The volume range with a zero delta widened to start at 0, so only an
      all-zero range keeps a zero delta. */
  function BarsRange(yr: Datarange.DataRange): (r: Datarange.DataRange)
    ensures Datarange.Delta(yr) != 0.0 ==> r == yr
    ensures Datarange.Delta(yr) == 0.0 ==> r.low == 0.0 && r.high == yr.high && r.stepSize == yr.stepSize
    ensures Datarange.Delta(r) == 0.0 <==> yr.low == 0.0 && yr.high == 0.0
  {
    if Datarange.Delta(yr) == 0.0 then Datarange.ResetBoundaries(yr, 0.0, yr.high) else yr
  }

  /** A drawn bar and the item it stands for. */
  datatype Bar = Bar(item: DataStock, rect: Rect)

  /** The bar before clipping: the candle slot's columns; its bottom row is
      the area's bottom raised by the scaled range low, and it rises by the
      scaled volume (one pixel when that truncates to zero). */
  function BarBox(sc: Scaling, d: DataStock): (b: Rect)
    ensures b.o.x == Slot(sc, d).o.x && b.width == Slot(sc, d).width
    ensures var bottom := sc.area.o.y + sc.area.height - Trunc(sc.yfactor * sc.low);
            var h := Trunc(sc.yfactor * d.volume);
      && (h > 0 ==> b.height == h && End(b).y == bottom)
      && (h < 0 ==> b.height == -h && b.o.y == bottom)
      && (h == 0 ==> b.o.y == bottom && b.height == 1)
  {
    var slot := Slot(sc, d);
    Upright(slot.o.x, slot.width, sc.area.o.y + sc.area.height - Trunc(sc.yfactor * sc.low), Trunc(sc.yfactor * d.volume))
  }

  /** The bar of an item: its box clipped by the draw area (None: the box
      misses the area and the bar is skipped). */
  function BarRect(sc: Scaling, d: DataStock): (r: Option<Rect>)
    ensures r.Some? ==> Within(r.value, sc.area) && r.value.width <= Slot(sc, d).width
    ensures r.None? <==> Disjoint(sc.area, BarBox(sc, d))
    ensures r.Some? ==> forall pt :: IsIn(pt, r.value) <==> IsIn(pt, sc.area) && IsIn(pt, BarBox(sc, d))
  {
    AndNoneIffDisjoint(sc.area, BarBox(sc, d));
    AndIsIntersectionAll(sc.area, BarBox(sc, d));
    And(sc.area, BarBox(sc, d))
  }

  /** The loop over the visited items: a bar that misses the area is skipped. */
  function BarsOf(sc: Scaling, items: seq<DataStock>): (bars: seq<Bar>)
    ensures |bars| <= |items|
    ensures forall k :: 0 <= k < |bars| ==> bars[k].item in items && BarRect(sc, bars[k].item) == Some(bars[k].rect)
    ensures forall k :: 0 <= k < |bars| ==> Within(bars[k].rect, sc.area)
    decreases |items|
  {
    if |items| == 0 then []
    else
      var rest := BarsOf(sc, items[1..]);
      var r := BarRect(sc, items[0]);
      if r.None? then rest else [Bar(items[0], r.value)] + rest
  }

  /** The first item's bar, when it meets the area, leads the bars. */
  lemma BarsOfHead(sc: Scaling, items: seq<DataStock>)
    requires |items| > 0 && BarRect(sc, items[0]).Some?
    ensures BarsOf(sc, items) == [Bar(items[0], BarRect(sc, items[0]).value)] + BarsOf(sc, items[1..])
  {
  }

  /** The bars of the later items are all kept. */
  lemma BarsOfKeeps(sc: Scaling, items: seq<DataStock>, b: Bar)
    requires |items| > 0 && b in BarsOf(sc, items[1..])
    ensures b in BarsOf(sc, items)
  {
    if BarRect(sc, items[0]).Some? {
      BarsOfHead(sc, items);
    }
  }

  /** Every item whose bar meets the draw area is drawn. */
  lemma {:induction false} BarsOfComplete(sc: Scaling, items: seq<DataStock>, j: nat)
    requires j < |items| && BarRect(sc, items[j]).Some?
    ensures Bar(items[j], BarRect(sc, items[j]).value) in BarsOf(sc, items)
    decreases j
  {
    if j == 0 {
      BarsOfHead(sc, items);
    } else {
      assert items[1..][j - 1] == items[j];
      BarsOfComplete(sc, items[1..], j - 1);
      BarsOfKeeps(sc, items, Bar(items[j], BarRect(sc, items[j]).value));
    }
  }

  /** The scaling of a bars redraw: the given draw area, the pixels per
      nanosecond of the axis range and per unit of its (widened) volume
      range, and that range's Low at the bottom. */
  function BarScaling(area: Rect, range: TimeSlice, yr: Datarange.DataRange): (sc: Scaling)
    requires DurationOf(range).d != 0 && Datarange.Delta(yr) != 0.0
    ensures sc.area == area && sc.range == range && sc.low == yr.low
    ensures sc.xfactor * DurationOf(range).d as real == area.width as real
    ensures sc.yfactor * Datarange.Delta(yr) == area.height as real
  {
    Scaling(area, range, area.width as real / DurationOf(range).d as real, area.height as real / Datarange.Delta(yr), yr.low)
  }

  /** onRedraw of the bars. The source has no guard here: the axis range must
      exist. A zero duration or an all-zero volume range divides by zero.
      Otherwise the bars are those of the visited items, each item whose bar
      meets the area in order. */
  function OnRedraw(series: DataList, range: TimeSlice, area: Rect, ops: Ops, dops: Datarange.Ops): (p: Plot<seq<Bar>>)
    ensures !p.NotDrawn?
    ensures p.NonFinite? <==> (DurationOf(range).d == 0 ||
      Datarange.Delta(BarsRange(VolumeDataRange(series, ops, dops, Some(range), 0))) == 0.0)
    ensures p.Drawn? ==> forall k :: 0 <= k < |p.figure| ==>
      Within(p.figure[k].rect, area) && p.figure[k].item in Visited(CandleRule, range, series.items)
    ensures p.Drawn? ==>
      p.figure == BarsOf(BarScaling(area, range, BarsRange(VolumeDataRange(series, ops, dops, Some(range), 0))),
                         Visited(CandleRule, range, series.items))
  {
    var yr := BarsRange(VolumeDataRange(series, ops, dops, Some(range), 0));
    var dur := DurationOf(range).d;
    if dur == 0 || Datarange.Delta(yr) == 0.0 then NonFinite
    else Drawn(BarsOf(BarScaling(area, range, yr), Visited(CandleRule, range, series.items)))
  }

  /** Every visited item whose bar meets the draw area is among the drawn
      bars. */
  lemma OnRedrawComplete(series: DataList, range: TimeSlice, area: Rect, ops: Ops, dops: Datarange.Ops, j: nat)
    requires OnRedraw(series, range, area, ops, dops).Drawn?
    requires var yr := BarsRange(VolumeDataRange(series, ops, dops, Some(range), 0));
             j < |Visited(CandleRule, range, series.items)| &&
             BarRect(BarScaling(area, range, yr), Visited(CandleRule, range, series.items)[j]).Some?
    ensures var yr := BarsRange(VolumeDataRange(series, ops, dops, Some(range), 0));
            var sc := BarScaling(area, range, yr);
            var d := Visited(CandleRule, range, series.items)[j];
            Bar(d, BarRect(sc, d).value) in OnRedraw(series, range, area, ops, dops).figure
  {
    var yr := BarsRange(VolumeDataRange(series, ops, dops, Some(range), 0));
    BarsOfComplete(BarScaling(area, range, yr), Visited(CandleRule, range, series.items), j);
  }

  /** NeedRedraw: the selection recorded at the last redraw no longer
      compares EQUAL to the chart's. */
  predicate NeedRedraw(lastSel: TimeSlice, chartSel: TimeSlice, ops: Ops) {
    ops.compare(lastSel, chartSel) != EQUAL
  }
}
