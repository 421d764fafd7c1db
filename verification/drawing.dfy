/** What every drawing shares: the series it is bound to, the time-to-pixel
    transform of its draw area, the vertical marker and the text box layout. */
module DrawingPrimitives {
  import opened Wrappers
  import opened Num
  import opened Geo2d
  import opened Timeline
  import opened StockSerie

  /** The series pointer of a drawing: none, the chart's main series (shared,
      so it follows ResetMainSeries), or a series of its own. */
  datatype SeriesRef = NoSeries | MainSeries | OwnSeries(list: DataList)

  /** The list a drawing reads; a missing series reads as an empty list. */
  function Resolve(ref: SeriesRef, main: DataList): (dl: DataList)
    ensures ref.MainSeries? ==> dl == main
    ensures ref.NoSeries? ==> IsEmpty(dl)
  {
    match ref
    case NoSeries => DataList("", [])
    case MainSeries => main
    case OwnSeries(l) => l
  }

  /** hasNonEmptySeries: the drawing has a series and it holds an item. */
  predicate HasNonEmptySeries(ref: SeriesRef, main: DataList) {
    !ref.NoSeries? && !IsEmpty(Resolve(ref, main))
  }

  lemma HasNonEmptySeriesMeaning(ref: SeriesRef, main: DataList)
    ensures HasNonEmptySeries(ref, main) <==> ref != NoSeries && |Resolve(ref, main).items| > 0
    ensures ref.MainSeries? ==> (HasNonEmptySeries(ref, main) <==> !IsEmpty(main))
  {
  }

  /** The unrounded pixel offset of `dx` nanoseconds in a range of `drange`
      nanoseconds drawn over `width` pixels. */
  function Scale(width: int, dx: int, drange: int): real
    requires drange != 0
  {
    width as real * dx as real / drange as real
  }

  lemma ScaleEnds(width: int, drange: int)
    requires drange > 0
    ensures Scale(width, 0, drange) == 0.0
    ensures Scale(width, drange, drange) == width as real
  {
  }

  lemma ScaleMonotone(width: int, a: int, b: int, drange: int)
    requires width >= 0 && drange > 0 && a <= b
    ensures Scale(width, a, drange) <= Scale(width, b, drange)
  {
    assert width as real * a as real <= width as real * b as real;
  }

  /** The guard at the top of most redraws and of the wheel handler: a
      non-empty series and a finite, non-negative axis range. A negative
      duration is the only one whose `Seconds()` is below zero. */
  predicate CanProceed(seriesEmpty: bool, range: Option<TimeSlice>) {
    !seriesEmpty && range.Some? && DurationOf(range.value).isFinite && DurationOf(range.value).d >= 0
  }

  /** The outcome of a redraw: nothing drawn because the guard failed, a
      scale factor that would be a float division by zero (an infinite or
      NaN factor in the source), or the computed figure. */
  datatype Plot<T> = NotDrawn | NonFinite | Drawn(figure: T)

  /** getMainDrawArea: the clip area less 5 pixels at the top and at the
      bottom, and 15 more at the bottom. */
  function MainDrawArea(clip: Rect): (a: Rect)
    ensures a.width == Max(0, clip.width) && a.height == Max(0, clip.height - 10) - 15
    ensures a.o.x == Max(clip.o.x, 0) && a.o.y == Max(clip.o.y + 5, 0)
  {
    var area := Shrink(clip, 0, 5);
    area.(height := area.height - 15)
  }

  /** On a clip area with a non-negative origin and room for the margins, the
      main draw area sits inside it, 5 pixels below its top and 20 above its
      bottom. */
  lemma MainDrawAreaInside(clip: Rect)
    requires clip.o.x >= 0 && clip.o.y >= 0 && clip.width >= 0 && clip.height >= 25
    ensures Within(MainDrawArea(clip), clip)
    ensures MainDrawArea(clip).o.y == clip.o.y + 5 && End(MainDrawArea(clip)).y == End(clip).y - 20
  {
  }

  /** The vertical line of the selected data point, drawn at the middle of
      its slice when the library places that middle in the axis range. */
  function SelectionLine(area: Rect, range: TimeSlice, xfactor: real, ops: Ops, selected: Option<DataStock>): (x: Option<int>)
    ensures x.Some? <==> selected.Some? && InSlice(ops, range, ops.middle(selected.value.ts))
    ensures x.Some? ==> x.value == area.o.x + Trunc(xfactor * (ops.middle(selected.value.ts) - range.from) as real)
  {
    if selected.None? then None
    else
      var mid := ops.middle(selected.value.ts);
      if InSlice(ops, range, mid) then Some(area.o.x + Trunc(xfactor * (mid - range.from) as real)) else None
  }

  /** xTime: the pixel column of an instant. The offset from the range's From
      is scaled by the draw-area width over the range duration and rounded.
      A zero duration gives a non-finite float in the source: None here. */
  function XTime(area: Rect, range: TimeSlice, at: int): (x: Option<int>)
    ensures x.None? <==> DurationOf(range).d == 0
  {
    var drange := DurationOf(range).d;
    if drange == 0 then None
    else Some(area.o.x + Round(Scale(area.width, at - range.from, drange)))
  }

  /** A range of positive duration maps its From to the left edge of the
      draw area and its To to the right edge. */
  lemma XTimeEnds(area: Rect, range: TimeSlice)
    requires DurationOf(range).d > 0
    ensures XTime(area, range, range.from) == Some(area.o.x)
    ensures XTime(area, range, range.to) == Some(End(area).x)
  {
    ScaleEnds(area.width, range.to - range.from);
    RoundOfInt(area.width);
    RoundOfInt(0);
  }

  /** With a non-negative width and a positive duration, xTime never
      decreases as time goes on. */
  lemma XTimeMonotone(area: Rect, range: TimeSlice, t1: int, t2: int)
    requires area.width >= 0 && DurationOf(range).d > 0 && t1 <= t2
    ensures XTime(area, range, t1).value <= XTime(area, range, t2).value
  {
    var d := range.to - range.from;
    ScaleMonotone(area.width, t1 - range.from, t2 - range.from, d);
    RoundMonotone(Scale(area.width, t1 - range.from, d), Scale(area.width, t2 - range.from, d));
  }

  /** An instant within the range lands within the draw area's columns. */
  lemma XTimeWithinArea(area: Rect, range: TimeSlice, at: int)
    requires area.width >= 0 && DurationOf(range).d > 0 && range.from <= at <= range.to
    ensures area.o.x <= XTime(area, range, at).value <= End(area).x
  {
    XTimeEnds(area, range);
    XTimeMonotone(area, range, range.from, at);
    XTimeMonotone(area, range, at, range.to);
  }

  /** DrawVLine: -1 for an instant the library does not place in the axis
      range, otherwise the column xTime gives. */
  function DrawVLine(ops: Ops, area: Rect, range: TimeSlice, at: int): (x: Option<int>)
    ensures !InSlice(ops, range, at) ==> x == Some(-1)
    ensures InSlice(ops, range, at) ==> x == XTime(area, range, at)
  {
    if InSlice(ops, range, at) then XTime(area, range, at) else Some(-1)
  }

  /** When "inside" means within the bounds, a drawn line is always inside
      the draw area's columns. */
  lemma DrawVLineInArea(ops: Ops, area: Rect, range: TimeSlice, at: int)
    requires InsideMeansWithin(ops) && area.width >= 0 && DurationOf(range).d > 0
    ensures DrawVLine(ops, area, range, at) == Some(-1) ||
            area.o.x <= DrawVLine(ops, area, range, at).value <= End(area).x
  {
    if InSlice(ops, range, at) {
      XTimeWithinArea(area, range, at);
    }
  }

  /** Text alignment flags. */
  const AlignCenter: bv8 := 0
  const AlignStart: bv8 := 1
  const AlignEnd: bv8 := 2
  const AlignTop: bv8 := 4
  const AlignBottom: bv8 := 8

  /** The placed background box and the text anchor relative to its origin. */
  datatype TextBox = TextBox(box: Rect, textOffset: Point)

  /** DrawTextBox before the box is fitted into the clip area: the box is the
      measured text grown by margin, border and padding on every side, placed
      by the alignment flags around `xy`. */
  function TextBoxLayout(textWidth: real, textHeight: real, xy: Point, align: bv8,
                         margin: int, border: int, padding: int): (tb: TextBox)
    ensures tb.box.width == Trunc(textWidth) + 2 * (margin + border + padding)
    ensures tb.box.height == Trunc(textHeight) + 2 * (margin + border + padding)
    ensures align & AlignStart != 0 ==> tb.box.o.x == xy.x
    ensures align & AlignStart == 0 && align & AlignEnd != 0 ==> End(tb.box).x == xy.x - 1
    ensures align & (AlignStart | AlignEnd) == 0 && tb.box.width >= 0 ==> tb.box.o.x <= xy.x <= End(tb.box).x
    ensures align & AlignTop != 0 ==> tb.box.o.y == xy.y
    ensures align & AlignTop == 0 && align & AlignBottom != 0 && border % 2 == 0 ==> End(tb.box).y == xy.y + 1
    ensures align & AlignTop == 0 && align & AlignBottom != 0 && border % 2 != 0 ==> End(tb.box).y == xy.y
    ensures align & (AlignTop | AlignBottom) == 0 && tb.box.height >= 0 ==> tb.box.o.y <= xy.y <= End(tb.box).y
    // centring: the box's two halves on either side of xy differ by at most the odd pixel
    ensures align & (AlignStart | AlignEnd) == 0 ==> tb.box.o.x == xy.x - GoDiv(tb.box.width, 2)
    ensures align & (AlignStart | AlignEnd) == 0 && tb.box.width >= 0 ==>
      0 <= (End(tb.box).x - xy.x) - (xy.x - tb.box.o.x) <= 1
    ensures align & (AlignTop | AlignBottom) == 0 ==> tb.box.o.y == xy.y - GoDiv(tb.box.height, 2)
    ensures align & (AlignTop | AlignBottom) == 0 && tb.box.height >= 0 ==>
      0 <= (End(tb.box).y - xy.y) - (xy.y - tb.box.o.y) <= 1
  {
    var inset := margin + border + padding;
    var w := Trunc(textWidth) + 2 * inset;
    var h := Trunc(textHeight) + 2 * inset;
    var halfpix := if border % 2 != 0 then 1 else 0;   // int(2.0 * 0.5) or int(0.0)
    var bx :=
      if align & AlignStart != 0 then xy.x
      else if align & AlignEnd != 0 then xy.x - w - 1
      else xy.x - GoDiv(w, 2);
    var tx :=
      if align & AlignStart != 0 then inset
      else if align & AlignEnd != 0 then w + 1 - inset
      else GoDiv(w, 2);
    var boxY :=
      if align & AlignTop != 0 then xy.y
      else if align & AlignBottom != 0 then xy.y + 1 - halfpix - h
      else xy.y - GoDiv(h, 2);
    var ty :=
      if align & AlignTop != 0 then inset
      else if align & AlignBottom != 0 then h - inset
      else GoDiv(h, 2);
    assert (AlignStart | AlignEnd) == 3 && (AlignTop | AlignBottom) == 12;
    TextBox(Rect(Point(bx, boxY), w, h), Point(tx, ty))
  }

  /** The text anchor, in canvas coordinates: `xy` moved inwards by margin,
      border and padding for a start or top alignment, outwards for an end
      or bottom one (less the half-pixel row for an even border), and `xy`
      itself when centred. */
  lemma TextAnchor(textWidth: real, textHeight: real, xy: Point, align: bv8, margin: int, border: int, padding: int)
    ensures var tb := TextBoxLayout(textWidth, textHeight, xy, align, margin, border, padding);
            var inset := margin + border + padding;
      && (align & AlignStart != 0 ==> tb.box.o.x + tb.textOffset.x == xy.x + inset)
      && (align & AlignStart == 0 && align & AlignEnd != 0 ==> tb.box.o.x + tb.textOffset.x == xy.x - inset)
      && (align & (AlignStart | AlignEnd) == 0 ==> tb.box.o.x + tb.textOffset.x == xy.x)
    ensures var tb := TextBoxLayout(textWidth, textHeight, xy, align, margin, border, padding);
            var inset := margin + border + padding;
      && (align & AlignTop != 0 ==> tb.box.o.y + tb.textOffset.y == xy.y + inset)
      && (align & AlignTop == 0 && align & AlignBottom != 0 ==>
            tb.box.o.y + tb.textOffset.y == xy.y + (if border % 2 == 0 then 1 else 0) - inset)
      && (align & (AlignTop | AlignBottom) == 0 ==> tb.box.o.y + tb.textOffset.y == xy.y)
  {
    assert (AlignStart | AlignEnd) == 3 && (AlignTop | AlignBottom) == 12;
  }
}
