# stockchart, modelled in Dafny

stockchart is an HTML5-canvas stock chart written in Go. It has a main OHLCV
series and six stacked canvas layers: graph, navigation bar, y scale and so on.
Each layer holds a stack of drawings: candles, volume bars, a series line,
vertical marks, a time grid, a value grid and the time-range selector. Under
the canvas calls sits sequential logic, and this project models it as pure
Dafny functions and methods over immutable datatypes. The model covers:

- integer pixel geometry: points, rectangles, flip, shrink, intersection,
  clamping and rates (`Geo2d`);
- the chronological data list, with append, sorted insert, lookup, its time
  slice and the min/max folds (`StockSerie`);
- the item walk every drawing makes over the list (`ItemScan`), the
  time-to-pixel transform and the text-box layout (`DrawingPrimitives`);
- each drawing's redraw geometry and its needs-redraw predicate (`Candles`,
  `Bars`, `SeriesLine`, `VLines`, `XGrid`, `YGrid`, `TimeSelector`,
  `Drawings`);
- the event-capability bitmask (`EventHandler`);
- each layer's ordered redraw and its "redraw at most once" rule (`Layers`);
- the pointer-event dispatcher and its change detection (`Dispatch`);
- the chart's selection rules, its time-range extension, the non-reentrant
  redraw guard and the layout arithmetic of `Resize` (`Charts`).

Modelling conventions:

- An instant is an integer count of nanoseconds from Go's zero time. The
  instant 0 is the zero time, and a time-slice bound equal to 0 is unbounded.
- Prices and volumes are `real`.
- The external `timeline` and `datarange` libraries are not part of this model.
  `Timeline.Ops` and `Datarange.Ops` carry their operations as uninterpreted
  parameters: `WhereIs`, `Compare`, `Progress`, `WhatTime`, `ExtendFrom`,
  `ShiftIn`, `Adjust`, `IsOverlapping`, `Middle`, `GetScanMask`, `Scan`,
  `MASK_SHORTEST`, `Make` and the range `Progress`.
- A few timeline operations are defined in `Timeline`. The chart's own code
  and comments fix the meaning of `Bound`, `MoveFromAt` and `MoveToAt`. The
  duration, the zero and infinite tests, `ExtendTo` and `BoundIn` are also
  defined there, but their meaning is an ASSUMPTION about the library. A
  duration is `To - From`. A slice is infinite when either bound is the zero
  instant and zero when both are. `ExtendTo` moves To by the duration.
  `BoundIn` clamps both bounds.
- A float division by zero in the source produces a non-finite pixel
  position. The redraw results report it as `NonFinite`.
- A redraw's canvas output is a figure value: rectangles, vertices, marks and
  labels. Painting, notifications and redraw requests are recorded in an
  effect trace (`Layers.Effect`).

## Model

| member | source | states |
|---|---|---|
| Geo2d.End | stockchart/geo2d.go:53-55 | the far corner lies exactly width and height away from the origin |
| Geo2d.EqualIsIdentity | stockchart/geo2d.go:37-45 | Equal holds for two missing rectangles, fails when exactly one is missing, and otherwise compares the four fields; together this is value equality of optional rectangles |
| Geo2d.FlipPositive | stockchart/geo2d.go:64-78 | both sizes end up at least 1; a negative size is flipped, with the origin moved to the other end, so that it covers the same span of coordinates; a zero size becomes 1 at the same origin; a positive size is untouched |
| Geo2d.XRate | stockchart/geo2d.go:99-116 | 0 for a zero width, always within [0,1], exactly the proportional position for an x between the left and right edges, 0 at or before the left edge and 1 at or past the right edge |
| Geo2d.YRate | stockchart/geo2d.go:80-97 | 0 for a zero height, always within [0,1], exactly the proportional position for a y between the top and bottom edges, 0 at or above the top edge and 1 at or below the bottom edge |
| Geo2d.RatesOfTestRect | stockchart/geo2d_test.go:8-37 | on the rectangle (100,100,100,100) both rates are 0.5 at 150, 0 at 50 and 1 at 200 |
| Geo2d.Shrink | stockchart/geo2d.go:123-145 | the origin and the sizes are never negative; width = max(0, W-2x) and height = max(0, H-2y); the origin moves by (x, y) whenever that stays non-negative |
| Geo2d.ShrinkInside | stockchart/geo2d.go:123-145 | shrinking a rectangle with a non-negative origin by margins that fit keeps both corners inside the original |
| Geo2d.And | stockchart/geo2d.go:149-171 | a common area has non-negative sizes, and both of its corners lie in both operands |
| Geo2d.AndNoneIffDisjoint | stockchart/geo2d.go:150-165 | the intersection is missing exactly when, on some axis, the larger origin lies beyond the smaller end |
| Geo2d.AndCommutative | stockchart/geo2d.go:149-171 | the intersection does not depend on the order of the operands |
| Geo2d.AndIsIntersection | stockchart/geo2d.go:149-171 | a point lies in the common area iff it lies in both rectangles |
| Geo2d.AndIdempotent | stockchart/geo2d.go:149-171 | a rectangle with non-negative sizes meets itself in itself |
| Geo2d.AndExample | stockchart/geo2d_test.go:39-58 | the documented example: (0,0,100,100) and (20,20,100,100) meet in (20,20,80,80) in either order, that area meets itself in itself, and (0,0,10,10) misses it |
| Geo2d.BoundX | stockchart/geo2d.go:174-181 | the result lies between the left and right edges, is x itself when x already lies there, and is the left edge for an x before it |
| Geo2d.BoundY | stockchart/geo2d.go:184-191 | the result lies between the top and bottom edges, is y itself when y already lies there, and is the top edge for a y above it |
| Geo2d.BoundAgreesWithClamp | stockchart/geo2d.go:174-191 | for non-negative sizes both bounds equal the independent clamp into [O, O+size] and are idempotent |
| Num.Trunc | stockchart/drawing_timeselector.go:112-113 | Go's float-to-int conversion: the integer toward zero within one unit of the value |
| Num.Round | stockchart/drawing_candles.go:102-103 | Go's math.Round: the nearest integer, with halves rounded away from zero |
| Num.GoDiv | stockchart/drawing.go:109-110 | Go's integer division agrees with the mathematical one for a non-negative dividend and a positive divisor |
| Timeline.Bound | stockchart/drawing_timeselector.go:179-181 | an instant is clamped into [From, To] and is unchanged when it already lies there |
| Timeline.BoundIn | stockchart/stockchart.go:364-368 | both bounds of a slice are clamped into the range, and a slice already inside is unchanged |
| StockSerie.Size | stockchart/stockserie.go:60-70 | the Head-to-Tail walk counts exactly the items of the list, and the count is 0 iff the list is empty |
| StockSerie.Append | stockchart/stockserie.go:73-87 | the item becomes the new Head, every earlier item is kept in place, and the Tail changes only when the list was empty |
| StockSerie.InsertScan | stockchart/stockserie.go:98-122 | the backward scan either leaves the list unchanged or adds exactly the new item, as a multiset |
| StockSerie.Insert | stockchart/stockserie.go:91-96 | inserting into an empty list gives the one-item list |
| StockSerie.InsertScanSkips | stockchart/stockserie.go:99-117 | the scan from the Head passes over every item that ends later than the new one |
| StockSerie.InsertScanAtTail | stockchart/stockserie.go:118-122 | when every item ends later, the new item is attached at the Tail |
| StockSerie.InsertScanOutcome | stockchart/stockserie.go:98-122 | the first item from the Head that ends no later decides: an equal end leaves the list unchanged, an earlier end splices the new item right after it, and no such item attaches it at the Tail |
| StockSerie.InsertDuplicateUnchanged | stockchart/stockserie.go:101-104 | when the scan meets an equal end before an earlier one, the list is unchanged |
| StockSerie.SpliceSorted | stockchart/stockserie.go:105-114 | splicing between the items ending before and the items ending after keeps the list sorted by end |
| StockSerie.InsertScanSorted | stockchart/stockserie.go:98-122 | the scan over a list sorted by end keeps it sorted; with a duplicate end it changes nothing, and otherwise it adds exactly one item |
| StockSerie.InsertKeepsSorted | stockchart/stockserie.go:91-122 | Insert keeps a list sorted by end. With a duplicate end it changes nothing; otherwise the size grows by one. The item goes to the Tail when every end is later |
| StockSerie.FindAt | stockchart/stockserie.go:127-134 | the index found is the first from the start whose slice covers t, with both bounds inclusive; none is found exactly when no item covers t |
| StockSerie.GetDataAt | stockchart/stockserie.go:126-135 | the item returned is the first from the Tail that covers t, and nothing is returned exactly when no item covers t |
| StockSerie.GetDataAtChronological | stockchart/stockserie.go:126-135 | in a chronological list, an instant strictly inside an item finds that item |
| StockSerie.GetDataAtOutsideSpan | stockchart/stockserie.go:126-135 | in a chronological list, an instant before the Tail or after the Head finds nothing |
| StockSerie.TimeSliceOf | stockchart/stockserie.go:140-147 | the slice is {Tail.From, Head.To}, or the zero slice for an empty list |
| StockSerie.TimeSliceCoversItems | stockchart/stockserie.go:140-147 | in a chronological list every item lies within the list's time slice |
| StockSerie.FoldHigh | stockchart/stockserie.go:156-174 | the high of the fold is the largest of 0 and the highs of the matched items |
| StockSerie.FoldLow | stockchart/stockserie.go:162-164 | a zero accumulator counts as unset. When no matched low is 0, the low of the fold is the smallest matched low, or 0 when nothing matches |
| StockSerie.FoldLowAfterZero | stockchart/stockserie.go:162-164 | a matched 0 resets the accumulator, so for non-negative values the low is the smallest matched value after the last matched 0, or 0 when no value follows it or nothing matches |
| StockSerie.ZeroResetExample | stockchart/stockserie.go:188-190 | volumes 10, 0, 20 from the Tail give a low of 20, not 0 or 10 |
| StockSerie.FoldSpec | stockchart/stockserie.go:183-200 | the high's meaning and both statements of the low's meaning hold, for prices and for volumes alike |
| StockSerie.ScanRange | stockchart/stockserie.go:157-170 | the Tail-to-Head loop with the Go-precedence filter computes the fold, so its result has the fold meaning |
| StockSerie.DataRange | stockchart/stockserie.go:156-174 | the price range is made, with the negated step count, from the fold over the matched items: its high is the largest of 0 and the matched highs, its low, for non-negative prices, the smallest matched low after the last matched zero low (0 when there is none) |
| StockSerie.VolumeDataRange | stockchart/stockserie.go:183-200 | the volume range is made, with the negated step count, from the fold over the matched volumes: the largest of 0 and those volumes, and, for non-negative volumes, the smallest of them after the last zero volume (0 when there is none) |
| ItemScan.Visited | stockchart/drawing_candles.go:76-87 | every item a walk draws comes from the list, is not skipped and does not stop the walk |
| ItemScan.FirstStop | stockchart/drawing_candles.go:85-87 | the walk stops at the first unskipped item that meets the stop rule, or at the end of the list |
| ItemScan.VisitedIsKeptPrefix | stockchart/drawing_series.go:93-102 | a walk draws exactly the unskipped items before the first stopping item, in order |
| ItemScan.VLinesNeverStop | stockchart/drawing_vlines.go:59-67 | the vertical-lines walk never breaks, so it draws every unskipped item |
| ItemScan.VisitedMeetRange | stockchart/drawing_bars.go:54-65 | every drawn candle or bar is finite, has a non-zero duration, ends no earlier than range.From and starts no later than range.To; every series item lies within the range |
| DrawingPrimitives.HasNonEmptySeriesMeaning | stockchart/drawing.go:40-42 | hasNonEmptySeries holds iff the drawing has a series and that series holds an item |
| DrawingPrimitives.MainDrawArea | stockchart/stockchart.go:224-228 | the main draw area is Shrink(0,5) with a further 15 taken off the height |
| DrawingPrimitives.MainDrawAreaInside | stockchart/stockchart.go:224-228 | on a clip area with room for the margins, the draw area lies inside it, 5 pixels below its top and 20 above its bottom |
| DrawingPrimitives.SelectionLine | stockchart/drawing_candles.go:60-71 | the selection line is drawn exactly when there is a selected item whose middle the library places inside the range, at the truncated scaled column |
| DrawingPrimitives.XTime | stockchart/drawing.go:155-161 | the column is defined exactly when the range has a non-zero duration |
| DrawingPrimitives.XTimeEnds | stockchart/drawing.go:155-161 | for a positive duration, From maps to the area's left edge and To to its right edge |
| DrawingPrimitives.XTimeMonotone | stockchart/drawing.go:155-161 | with a non-negative width and a positive duration, xTime never decreases as time advances |
| DrawingPrimitives.XTimeWithinArea | stockchart/drawing.go:155-161 | an instant within the range lands within the area's columns |
| DrawingPrimitives.DrawVLine | stockchart/drawing.go:165-189 | -1 when the library does not place the instant inside the range, and xTime of it otherwise |
| DrawingPrimitives.DrawVLineInArea | stockchart/drawing.go:165-189 | when "inside" means within the bounds, DrawVLine returns -1 or a column within the area |
| DrawingPrimitives.TextBoxLayout | stockchart/drawing.go:84-128 | the box is the measured text plus twice margin+border+padding on each axis. AlignStart puts the left edge at xy.X and AlignEnd the right edge at xy.X-1. Otherwise the box starts at xy.X - width/2 (Go division), so its halves either side of xy.X differ by at most one pixel. The vertical cases follow the same pattern, including the half-pixel rule for odd borders. |
| DrawingPrimitives.TextAnchor | stockchart/drawing.go:96-133 | the text anchor (box origin plus text offset) lands at xy moved by margin+border+padding: right of xy for AlignStart and left for AlignEnd, below for AlignTop and above for AlignBottom (one row lower for an even border), and exactly on xy on a centred axis |
| TimeSelector.NewSelector | stockchart/drawing_timeselector.go:29-38 | the factory gives 8x30 handles, no drag and a five-minute minimum zoom |
| TimeSelector.MoveButton | stockchart/drawing_timeselector.go:104-114 | a handle keeps its size and is centred on the given point, with the origin truncated |
| TimeSelector.PlaceButtons | stockchart/drawing_timeselector.go:83-101 | the local redraw changes only the two handles and keeps their widths |
| TimeSelector.OnRedraw | stockchart/drawing_timeselector.go:67-80 | a failed guard changes nothing; otherwise the local selection is resynchronised from the chart's, so the selector no longer needs a redraw |
| TimeSelector.OnMouseDown | stockchart/drawing_timeselector.go:117-134 | dragIn records whether a drag was already under way; a drag flag already set stays set; a press in the From handle starts dragging From, and only a press outside it but in the To handle starts dragging To; selection and handles are unchanged |
| TimeSelector.OnMouseUp | stockchart/drawing_timeselector.go:139-149 | the local selection is committed to the chart and both drag flags are cleared |
| TimeSelector.PointerTime | stockchart/drawing_timeselector.go:179-181 | the instant under the pointer is clamped into the axis range |
| TimeSelector.OnMouseMove | stockchart/drawing_timeselector.go:155-203 | a missing range changes nothing. The resize cursor tracks whether the pointer is over a handle. Without a drag the selection never changes. Dragging From moves From to the clamped pointer time, and dragging To moves To, exactly when that leaves more than MinZoom to the other bound; the local redraw is asked for exactly then |
| TimeSelector.DragFromGuard | stockchart/drawing_timeselector.go:183-188 | dragging From moves only From, to the clamped pointer time, exactly when that time is strictly before To - MinZoom, and asks for a redraw then; otherwise the selection is unchanged. A moved From stays within the axis range and leaves more than MinZoom |
| TimeSelector.DragToGuard | stockchart/drawing_timeselector.go:189-195 | dragging To moves only To, to the clamped pointer time, exactly when that time is strictly after From + MinZoom, and asks for a redraw then; otherwise the selection is unchanged. A moved To stays within the axis range and leaves more than MinZoom |
| TimeSelector.WheelDir | stockchart/drawing_timeselector.go:213-222 | a positive DeltaY gives -1, a negative one +1, and zero gives no direction |
| TimeSelector.OnWheel | stockchart/drawing_timeselector.go:206-258 | a failed guard or a zero DeltaY changes nothing; every other wheel event commits the new local selection to the chart |
| TimeSelector.WheelZoomFrom | stockchart/drawing_timeselector.go:233-238 | a zoom clamps From into the axis range; if that leaves less than MinZoom, From becomes exactly To - MinZoom; if From moved, the result is the clamped slice |
| TimeSelector.WheelZoomTo | stockchart/drawing_timeselector.go:238-245 | when the clamped From stays where it was, From is kept and To becomes the clamped extended end or MinZoom past it; when that end is not before From, at least MinZoom remains |
| Candles.ColorOf | stockchart/drawing_candles.go:89-95 | green iff Close > Open, red iff Close < Open, neutral iff they are equal |
| Candles.Padding | stockchart/drawing_candles.go:106-108 | the padding is a tenth of the width, rounded down, and twice it stays below the width |
| Candles.Slot | stockchart/drawing_candles.go:101-108 | the candle starts at the rounded scaled offset plus the padding. Its width is max(1, rounded width) less twice the padding |
| Candles.Upright | stockchart/drawing_candles.go:115-117 | a rectangle standing on a row and rising h pixels keeps its column and width. It ends on that row for a positive h, starts on it for a negative h (hanging below), covers both the row and the row h above it, and is one pixel high for h = 0 |
| Candles.BodyRect | stockchart/drawing_candles.go:113-117 | the body takes the slot's columns. If the scaled close-open is a non-zero h, the body is abs(h) tall and spans both the open row (the area's bottom raised by the scaled open-low) and the row h above it. If h is zero, the body is one pixel tall at the open row |
| Candles.CandleRect | stockchart/drawing_candles.go:110-124 | a slot at most 2 wide is kept as it is. For a wider slot, the result is missing exactly when the body misses the draw area. Otherwise it lies in the area, and a point is in it iff the point is in both the area and the body |
| Candles.WickRect | stockchart/drawing_candles.go:129-138 | the wick is WickWidth = max(padding, 1) wide, at least one pixel. It starts half that width (Go integer division) left of the column at the clip-area progress of the item's middle, so it covers that column. Its rows span the low row and the row the scaled high-low lies above it, one pixel when that is zero |
| Candles.Wick | stockchart/drawing_candles.go:140-143 | the drawn wick is missing exactly when the unclipped wick misses the draw area. Otherwise it lies in the area, is no wider than the unclipped wick, and a point is in it iff the point is in both the area and the unclipped wick |
| Candles.Step | stockchart/drawing_candles.go:88-147 | rcandle becomes the item's candle rectangle. If that is missing, the item is skipped: no shape, and `last` is unchanged. Otherwise exactly one shape is appended and `last` becomes the item. The new shape is in the item's colour and inside the area. It has a body exactly when the slot is wider than 2, and the body is the candle rectangle. Its wick is the clipped wick. Earlier shapes are untouched |
| Candles.StepShapesOfItems | stockchart/drawing_candles.go:110-147 | one more step keeps every shape drawn from one of the items so far |
| Candles.WalkOf | stockchart/drawing_candles.go:73-148 | the walk draws at most one shape per item; rcandle is that of the last visited item; `last` is set exactly when a shape was drawn, and it is the item of the last shape |
| Candles.WalkShapesOfItems | stockchart/drawing_candles.go:73-148 | every shape the walk leaves draws a visited item in its colour, inside the area, with a body only for slots wider than 2 |
| Candles.WalkComplete | stockchart/drawing_candles.go:73-148 | every visited item whose candle rectangle exists leaves its shape (colour, body, wick) among the walk's shapes |
| Candles.EndingOf | stockchart/drawing_candles.go:150-154 | the ending line exists exactly when both `last` and rcandle exist, at rcandle's right edge, labelled with last's end |
| Candles.EndingFollowsLastItem | stockchart/drawing_candles.go:145-154 | the ending line is drawn exactly when the last visited item kept a rectangle, and it is labelled with that item's end |
| Candles.CandleScaling | stockchart/drawing_candles.go:48-55 | the redraw uses the main draw area; xfactor times the axis duration is the area width, yfactor times the price delta is the area height, and the bottom row is the price range's Low |
| Candles.FigureOf | stockchart/drawing_candles.go:59-161 | the figure holds the selection line for the selected item. Every shape draws one of the visited items inside the area, and every item whose candle rectangle exists is drawn. The ending line exists exactly when the last visited item kept a candle rectangle; it sits at that rectangle's right edge and is labelled with the item's end |
| Candles.OnRedraw | stockchart/drawing_candles.go:36-161 | nothing is drawn exactly when the guard fails. A zero duration or a zero price delta is non-finite. Otherwise the figure is that of the visited items under the redraw's scaling, so every shape lies in the main draw area and draws a visited item |
| Candles.NeedRedraw | stockchart/drawing_candles.go:28-30 | the candles always ask to be redrawn |
| Bars.BarsRange | stockchart/drawing_bars.go:42-45 | a zero-delta volume range is reset to (0, High) with the same step, and any other range is kept; the result still has a zero delta only when both bounds are 0 |
| Bars.BarBox | stockchart/drawing_bars.go:77-88 | the unclipped bar takes the slot's columns. Its bottom row is the area's bottom raised by the scaled range Low, and it rises by the scaled volume. A negative scaled volume hangs below that row, and a zero one is one pixel tall |
| Bars.BarRect | stockchart/drawing_bars.go:90-94 | the bar is missing exactly when the unclipped bar misses the draw area. Otherwise it lies in the area, is no wider than the slot, and a point is in it iff the point is in both the area and the unclipped bar |
| Bars.BarsOf | stockchart/drawing_bars.go:51-101 | every drawn bar stands for one of the items, is that item's bar rectangle, and lies inside the draw area |
| Bars.BarsOfComplete | stockchart/drawing_bars.go:90-97 | every item whose bar meets the draw area is drawn |
| Bars.BarScaling | stockchart/drawing_bars.go:41-46 | the bars use the given draw area; xfactor times the axis duration is the area width, yfactor times the volume delta is the area height, and the bottom row is the volume range's Low |
| Bars.OnRedraw | stockchart/drawing_bars.go:39-101 | a zero duration or a still-zero volume delta is non-finite. Otherwise every bar lies in the draw area and draws a visited item, and the figure is exactly the bars of the visited items under the redraw's scaling |
| Bars.OnRedrawComplete | stockchart/drawing_bars.go:51-99 | every visited item whose bar meets the draw area is among the bars a redraw draws |
| SeriesLine.Path | stockchart/drawing_series.go:89-135 | the first item adds its open vertex and every item one close vertex, in order; in fill mode the path is closed through (xclose, bottom) and (x0, bottom) |
| SeriesLine.SeriesScaling | stockchart/drawing_series.go:53-60 | the series uses the clip area less 5 pixels top and bottom; xfactor times the axis duration is its width, yfactor times the price delta is its height, and the bottom row is the price range's Low |
| SeriesLine.OnRedraw | stockchart/drawing_series.go:46-138 | the selected data is remembered exactly when the guard passes. Nothing is drawn iff the guard fails, and a zero duration or price delta is non-finite. Otherwise the figure holds the selection line of the selected item, the open vertex of the first visited item followed by the close vertex of each visited item in order, and in fill mode the closing points below the last close and the first open |
| VLines.Overlaps | stockchart/drawing_vlines.go:69-74 | the count is at most the number of drawn slices, and 0 when the library finds none overlapping |
| VLines.CountOverlaps | stockchart/drawing_vlines.go:69-74 | the inner loop counts exactly the drawn slices that overlap the item |
| VLines.MarkGeometry | stockchart/drawing_vlines.go:76-83 | a mark starts at xTime of the item, is at least one pixel long, and sits at bottom + 5 - 10 per overlap |
| VLines.Marks | stockchart/drawing_vlines.go:57-94 | each drawn item's mark uses the number of earlier drawn items that overlap it, so every drawn slice joins the list |
| VLines.OnRedraw | stockchart/drawing_vlines.go:37-97 | only a zero duration is non-finite; otherwise there is one mark per unskipped item, in walk order |
| XGrid.MaxScans | stockchart/drawing_xgrid.go:40-42 | the scan budget is the width divided by 100, and 0 for a width below 100 |
| XGrid.PlaceLabels | stockchart/drawing_xgrid.go:83-106 | tick j gets a label at column+2 exactly when column+2 lies beyond the end of the last label drawn |
| XGrid.EndBeforeCovers | stockchart/drawing_xgrid.go:95-102 | with non-negative widths, lastlabelend never falls back behind a drawn label's end |
| XGrid.LabelsNeverOverlap | stockchart/drawing_xgrid.go:95-102 | with non-negative widths, every drawn label starts strictly after the end of each earlier drawn label |
| XGrid.Columns | stockchart/drawing_xgrid.go:87-89 | one column per tick, from the tick's progress across the area |
| XGrid.Widths | stockchart/drawing_xgrid.go:97-101 | one measured width per tick, from the label formatted against the previous tick |
| XGrid.OnRedraw | stockchart/drawing_xgrid.go:33-107 | nothing is drawn iff the guard fails. The secondary grid exists iff the main mask exceeds MASK_SHORTEST; its lines are the columns of the scan one mask finer, with its height by full-grid mode. The main lines are the columns of the main scan; they use the secondary colour when not a full grid, and the labels follow the collision rule |
| YGrid.BelowClosedForm | stockchart/drawing_ygrid.go:51 | n steps down from High is High - n*step |
| YGrid.StepsBound | stockchart/drawing_ygrid.go:51 | while the loop value stays at or above Low, the number of steps is bounded by floor((High-Low)/step) |
| YGrid.Ticks | stockchart/drawing_ygrid.go:51 | no ticks for a non-positive step or a High below Low. Otherwise the ticks start at High and fall by exactly one step each, all within [Low, High], and the next step would fall below Low |
| YGrid.StepsDownClosedForm | stockchart/drawing_ygrid.go:51 | the k-th tick is High - k*step |
| YGrid.TicksClosedForm | stockchart/drawing_ygrid.go:51 | the loop's values are exactly High - k*step for k below their count, and High - count*step falls below Low |
| YGrid.Row | stockchart/drawing_ygrid.go:53-56 | a tick's row is clamped into the draw area |
| YGrid.LabelX | stockchart/drawing_ygrid.go:70 | the corrected label column lies inside the draw area, 7 pixels right of its left edge |
| YGrid.LabelXAsWrittenLeavesArea | stockchart/drawing_ygrid.go:70 | the column as written, computed from the top edge, falls outside an area placed away from the canvas origin, where the corrected one does not |
| YGrid.LinesOf | stockchart/drawing_ygrid.go:58-64 | one line per tick at the tick's row, as wide as the area unless in scale mode, where it is 10 |
| YGrid.LabelsOf | stockchart/drawing_ygrid.go:66-71 | one label per tick, carrying the tick value, at the corrected column and one pixel below the row |
| YGrid.Grid | stockchart/drawing_ygrid.go:50-72 | for a value range, line k sits at the row of High - k*step, which is at or above Low, and the next value falls below Low; a positive step with High >= Low gives at least one line. Lines are 10 wide in scale mode and as wide as the area otherwise, and label k carries High - k*step one row below line k, at the corrected column (see ## Findings) |
| YGrid.OnRedraw | stockchart/drawing_ygrid.go:34-75 | nothing is drawn iff the guard fails, and only a drawn grid remembers its range, which is that of the chart selection. Line k is drawn at the row of High - k*step, which is at or above Low. Every such value gets a line, since the next one falls below Low, and a positive step with High >= Low draws at least one line. Lines are 10 wide in scale mode and as wide as the area otherwise. The scale labels carry the same values, one row below each line, at the corrected column (see ## Findings) |
| EventHandler.FlagsAreDistinctBits | stockchart/eventhandler.go:5-15 | every evt flag is a single bit within evt_All, and distinct kinds have disjoint bits |
| EventHandler.BitsOf | stockchart/eventhandler.go:20-40 | a drawing's flag word has the bit of an event set iff the drawing has that handler |
| EventHandler.HandledEvents | stockchart/eventhandler.go:17-43 | a bit is set iff at least one drawing of the stack has the corresponding handler |
| EventHandler.EmptyStackHandlesNothing | stockchart/eventhandler.go:17-43 | an empty drawing stack yields evt_None |
| EventHandler.PushOrsFlags | stockchart/eventhandler.go:19-41 | adding a drawing ORs its flags into the mask |
| EventHandler.AddingNeverClears | stockchart/eventhandler.go:19-41 | adding a drawing never clears a bit |
| Drawings.AfterRedraw | stockchart/drawing_bars.go:26-29 | a redraw changes only the drawing's kept state, never its kind, series, handlers or redraw hook; with a failed guard only bars and vertical lines record anything |
| Drawings.RedrawSettles | stockchart/drawing_series.go:28-32 | right after its redraw, with the chart unchanged, a settling drawing no longer needs one: bars, vertical lines, a time grid that does not depend on the selection, and the series, value grid and selector when their guard passed. The candles and a selection-dependant time grid still do |
| Layers.AddDrawing | stockchart/layer.go:55-59 | the drawing is pushed on top with this layer as parent and the background colour set; earlier drawings and the rest of the layer are unchanged |
| Layers.InstalledIffHandled | stockchart/layer.go:88-92 | a listener for an event is installed iff some drawing of the layer has that handler |
| Layers.Paint | stockchart/layer.go:240-244 | each drawing with an OnRedraw is painted and updated, in stack order, and the others are left as they are |
| Layers.Redraw | stockchart/layer.go:238-245 | the layer is cleared first, then exactly the drawings with an OnRedraw are painted; series bindings are kept and nothing is notified |
| Layers.FirstNeed | stockchart/layer.go:250-261 | the index found is the first whose NeedRedraw answers true; no earlier drawing's answers true |
| Layers.RedrawOnlyNeeds | stockchart/layer.go:249-262 | the layer is redrawn iff some drawing's NeedRedraw answers true; otherwise it is unchanged |
| Layers.OnlyNeedsAsksUpToFirst | stockchart/layer.go:250-259 | exactly the existing predicates up to and including the first true one are evaluated, and none after it |
| Layers.OnlyNeedsRedrawsAtMostOnce | stockchart/layer.go:256-259 | the layer is cleared, and so redrawn, at most once |
| Layers.ResetSubSeries | stockchart/drawing.go:65-72 | the drawing is rebound to the new series, and the layer is redrawn only on request |
| Layers.BufferSize | stockchart/layer.go:211-215 | the buffer size is never negative, and is the truncated product for non-negative inputs |
| Layers.Resize | stockchart/layer.go:202-230 | ClipArea.O.X becomes 0 and O.Y is left untouched, because O.X is assigned twice. The clip sizes become the buffer sizes, and the layer is then redrawn |
| Charts.FlattenInOrder | stockchart/stockchart.go:331-335 | an effect of an earlier layer precedes, in the chart's trace, every effect of a later layer |
| Charts.RedrawPass | stockchart/stockchart.go:325-337 | a request during a redraw is dropped with the chart unchanged. Otherwise every present layer passes in index order, and the trace is their traces concatenated. The result is quiet and ends with isDrawing false |
| Charts.Redraw | stockchart/stockchart.go:325-337 | the full redraw pass never leaves isDrawing set unless it was already set, changes only the layers, keeps series bindings and sends no notification |
| Charts.RedrawOnlyNeeds | stockchart/stockchart.go:342-354 | the needs-only redraw pass has the same guard and frame as Redraw |
| Charts.SelectionFor | stockchart/stockchart.go:364-369 | a zero slice stores the whole time range; any other slice is bounded into the range; a slice already inside is stored as it is |
| Charts.DoChangeSelTimeSlice | stockchart/stockchart.go:362-378 | the bounded selection is stored and what needs it is redrawn. The time-slice notification fires iff fNotify is set and a callback exists, and no data notification is sent |
| Charts.DoChangeSelData | stockchart/stockchart.go:380-390 | the new data is stored and the needs-only redraw is run. The data notification fires iff fNotify is set and a callback exists, and it carries the new data |
| Charts.DoChangeTimeZone | stockchart/stockchart.go:392-398 | the zone flag is stored, only the layers and the redraw flag change besides it, and nothing is notified |
| Charts.ExtendedRange | stockchart/stockchart.go:106-111 | To is pushed out by the truncated duration x extendrate only for a finite duration and a positive rate; otherwise the range is copied unchanged |
| Charts.SetTimeRange | stockchart/stockchart.go:102-118 | the (extended) range is installed. The selection is reset through DoChangeSelTimeSlice, without notification, exactly when it is zero or sticks out of the range; otherwise nothing else changes |
| Charts.SetTimeRangeKeepsSelectionInside | stockchart/stockchart.go:110-117 | with a well-ordered range, the selection afterwards lies within the range, and a reset selection is the whole range |
| Charts.LayoutTiles | stockchart/stockchart.go:280-316 | the graph sits above the navigation bar with a 3-pixel margin, and the y scale sits right of the graph with the same height. With room enough, all of them lie inside the full area |
| Charts.ResizeLayer | stockchart/stockchart.go:291-318 | each layer is resized from its layout rectangle and keeps its layout |
| Charts.Resize | stockchart/stockchart.go:267-320 | a master element without width or height changes nothing; otherwise every present layer, and only those, is resized from the truncated master dimensions |
| Charts.DetachSubSeries | stockchart/stockchart.go:60-71 | every drawing not bound to the main series loses its series; drawings on the main series and missing layers are kept |
| Charts.ResetMainSeries | stockchart/stockchart.go:58-83 | sub-series are detached, the series is installed, and the time range is set from its time slice; series bindings stay detached and nothing is notified |
| Dispatch.SelectorStep | stockchart/drawing_timeselector.go:43-57 | a press or a move leaves the chart selection alone. An effective wheel event commits the local selection. A release or a leave commits it, clears both drag flags and asks for no local repaint |
| Dispatch.SelectorHandle | stockchart/drawing_timeselector.go:197-201 | the selector's handler changes only the layers and the chart selection, and sends no notification |
| Dispatch.Handle | stockchart/layer.go:98-102 | a drawing without a handler for the event leaves everything unchanged |
| Dispatch.HandleFrom | stockchart/layer.go:113-117 | the handler loop changes only the layers and the chart selection, and sends no notification |
| Dispatch.ProcessSelChange | stockchart/layer.go:77-84 | the time-slice change is propagated iff Compare with the snapshot is DIFFERENT, and notified when a callback exists. The data notification fires iff the selected data changed |
| Dispatch.DispatchEvent | stockchart/layer.go:92-105 | an event not reaching the layer changes nothing. Otherwise the handlers run, and the notifications fire exactly on a DIFFERENT selection or on changed data against the pre-event snapshot |

## Definitions without a row

These are predicates and small helpers with no contract of their own. Each is part of the statement of the row named beside it.

- Geo2d.IsIn (stockchart/geo2d.go:16-20): both bounds inclusive on each axis. Covered by Geo2d.AndIsIntersection and Dispatch.DispatchEvent.
- StockSerie.IsEmpty (stockchart/stockserie.go:48-50) and DrawingPrimitives.CanProceed (stockchart/drawing_candles.go:37, repeated in the other redraws): the guard that turns each OnRedraw into NotDrawn. Covered by the OnRedraw rows of Candles, SeriesLine, XGrid, YGrid and TimeSelector, and by TimeSelector.OnWheel; IsEmpty also by StockSerie.Size and StockSerie.TimeSliceOf.
- The NeedRedraw predicates of Bars (stockchart/drawing_bars.go:31-33), SeriesLine (stockchart/drawing_series.go:28-42), VLines (stockchart/drawing_vlines.go:30-32), YGrid (stockchart/drawing_ygrid.go:26-29) and TimeSelector (stockchart/drawing_timeselector.go:58-60), with the dispatch over kinds, Drawings.NeedRedraw. Covered by Drawings.AfterRedraw and Drawings.RedrawSettles: right after a redraw, none of them asks for another.
- TimeSelector.WheelZoom (stockchart/drawing_timeselector.go:233-245): covered by TimeSelector.WheelZoomFrom and TimeSelector.WheelZoomTo.
- Charts.LayoutArea (stockchart/stockchart.go:292-316): covered by Charts.LayoutTiles.
- Charts.SelNeedsUpdate (stockchart/stockchart.go:113): covered by Charts.SetTimeRange and Charts.SetTimeRangeKeepsSelectionInside.
- Dispatch.Reaches (stockchart/layer.go:92-95): covered by Dispatch.DispatchEvent.
- Candles.WickWidth and Candles.WickCentre (stockchart/drawing_candles.go:131-133): covered by Candles.WickRect.

## Left out

- Canvas and DOM effects are not modelled: painting, cursor styling, the style map, canvas creation (`addNewLayer`, `getChartElement`), `getMouseXY` and the device-pixel-ratio lookup. Painting survives only as effects in a trace, and the pointer position and the pixel ratio are parameters.
- The internals of the `timeline` and `datarange` libraries, `FormatData`, label time formatting and `rgb` colour arithmetic are not part of this model. They are uninterpreted parameters; a label's width is a `measure` parameter. The series name that `DataRange` and `VolumeDataRange` pass to `datarange.Make` as a fourth argument is dropped, since it only labels the range.
- Rect.Box, which fits a text box into the clip area, is not part of this model, so `DrawingPrimitives.TextBoxLayout` stops before it.
- Go's `time.Duration` saturation and the 64-bit range of instants are not modelled: instants are unbounded integers.
- A missing (nil) series reads as an empty list, where Go would dereference nil.
- The selected data point is compared by value, where Go compares pointers.
- Custom drawings installed by the caller are closures. The model keeps only whether each hook exists and the need answer it gives, so their handlers have no effect on the chart.
- The source comes from mixed revisions. `layer.go` calls `DoSelChangeTimeSlice`/`DoSelChangeData`; these are modelled as the `DoChangeSelTimeSlice`/`DoChangeSelData` that `stockchart.go` defines. The series drawing's `Layer.selectedData` is read as the chart's `selectedData`. `drawing_vlines.go:85-87` reads `item.Label`, which the shown `DataStock` does not declare; it is modelled as a `labelText` field of the item.
- The bars, the vertical lines, the time grid and the value grid read a `drawArea` field that nothing in the shown code assigns, so it is a given field of the drawing (the `area` parameter of XGrid.OnRedraw and YGrid.OnRedraw).
- `AddSubChart`, `NewStockChart`, `NewLayer`, the drawing factories other than the time selector's, the `String` methods, `debug.go` and the example programs are not modelled.
- The superseded files `drawinglayer.go`, `drawing_xscale.go`, `drawing_yscale.go`, `drawing_background.go` and `drawing_hovercandles.go` are not part of this model.
- Num.Round: Go's `math.Round` rounds halves away from zero. The model states exactly that, rather than `Floor(r + 0.5)`, which differs for negative halves.
- XGrid.MaxScans: a negative width gives a budget of 0, where Go's `uint` conversion of a negative float is implementation-defined.
- Bars.OnRedraw: `onRedraw` has no guard against a missing axis range, so the model takes the range as given and cannot express a nil dereference.
- VLines.OnRedraw: like the bars, it takes the axis range as given.
- TimeSelector.WheelZoomTo: `ExtendTo(timeStep * -dir)` is written as an extension by the negated zoom step, and the library's sign conventions for `ExtendFrom` and `ShiftIn` stay uninterpreted. The lemma therefore states the outcome only up to the clamped end.
- YGrid.NeedRedraw: the library compares value ranges with `DataRange.Equal`. The model compares the range values, which assumes that `Equal` is value equality.
- Geo2d.And: the debug `log.Printf` at `geo2d.go:167-169`, written when the intersection differs from the second operand, is dropped because it has no effect on the result.
- Charts.ExtendedRange: `timeline.Nanoseconds(float)` is taken to truncate toward zero, because the library is not part of this model.
- SeriesLine.NeedRedraw and SeriesLine.OnRedraw: the unconditional debug output (`fmt.Printf` at `drawing_series.go:40`, `55` and `71`, `fmt.Println` at `drawing_series.go:66`) is dropped. It writes to the console and changes no result.
- YGrid.OnRedraw: the scale values are exact reals `High - k * step`. Go reaches them by subtracting the step from a `float64` again and again, so rounding can shift a value slightly. Near `Low` it can also add or drop the last line. Floating-point rounding is not modelled.
- StockSerie.FoldLowAfterZero: when a matched value is negative and a zero follows it, the zero does not reset Go's minimum. The lemma states the low only for non-negative values, as prices and volumes are in practice.
- StockSerie.DataRange and StockSerie.VolumeDataRange: their low is stated after the last matched zero only for non-negative values, for the same reason. Without a matched zero it is the smallest matched value whatever the signs.

## Findings

| source | as written | input that shows it | evidently intended | confidence | as-written member | corrected member |
|---|---|---|---|---|---|---|
| stockchart/drawing_ygrid.go:70 | the value label's x coordinate is `drawArea.O.Y + 7`, taken from the top edge | a draw area at (100, 0) of size 50x300 puts the label at column 7, left of the area | `drawArea.O.X + 7`, 7 pixels right of the left edge | medium, not executed | YGrid.LabelXAsWrittenLeavesArea | YGrid.LabelX |
