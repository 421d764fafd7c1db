/** The time-range selector drawn over the navigation bar: two handles that
    can be dragged to move the bounds of a locally tracked selection, a wheel
    that zooms or pans, and a commit of the local selection to the chart's
    selected time slice on release. */
module TimeSelector {
  import opened Wrappers
  import opened Num
  import opened Geo2d
  import opened Timeline
  import opened DrawingPrimitives

  const ButtonWidth: int := 8
  const ButtonHeight: int := 30
  /** One minute in nanoseconds. */
  const Minute: int := 60_000_000_000
  const DefaultMinZoom: int := 5 * Minute

  datatype Selector = Selector(
    buttonFrom: Rect,           // the From handle, within the clip area
    buttonTo: Rect,             // the To handle, within the clip area
    isResizeCursor: bool,
    dragFrom: bool, dragTo: bool, dragIn: bool,
    dragSel: TimeSlice,         // local selection; the chart's is updated on release
    minZoom: int)

  /** The factory state: 8x30 handles, no drag, a five-minute minimum zoom. */
  function NewSelector(): (s: Selector)
    ensures s.buttonFrom.width == ButtonWidth && s.buttonFrom.height == ButtonHeight
    ensures s.buttonTo.width == ButtonWidth && s.buttonTo.height == ButtonHeight
    ensures !s.dragFrom && !s.dragTo && s.minZoom == 5 * Minute
  {
    Selector(Rect(Origin, ButtonWidth, ButtonHeight), Rect(Origin, ButtonWidth, ButtonHeight),
             false, false, false, false, ZeroSlice, DefaultMinZoom)
  }

  /** The local selection is out of step with the chart's. */
  predicate NeedRedraw(s: Selector, chartSel: TimeSlice) {
    s.dragSel != chartSel
  }

  /** moveButton: the handle is centred on (xcenter, ycenter), its origin
      truncated to integers. */
  function MoveButton(button: Rect, xcenter: real, ycenter: real): (b: Rect)
    ensures b.width == button.width && b.height == button.height
    ensures b.o.x == Trunc(xcenter - button.width as real / 2.0)
    ensures b.o.y == Trunc(ycenter - button.height as real / 2.0)
  {
    var x0 := xcenter - button.width as real / 2.0;
    var y0 := ycenter - button.height as real / 2.0;
    button.(o := Point(Trunc(x0), Trunc(y0)))
  }

  /** The local redraw: both handles are re-centred on the pixel position of
      the local selection's bounds, halfway down the clip area. */
  function PlaceButtons(s: Selector, clip: Rect, range: TimeSlice, ops: Ops): (r: Selector)
    ensures r == s.(buttonFrom := r.buttonFrom, buttonTo := r.buttonTo)
    ensures r.buttonFrom.width == s.buttonFrom.width && r.buttonTo.width == s.buttonTo.width
  {
    var ycenter := clip.o.y as real + clip.height as real / 2.0;
    var xposleft := clip.o.x as real + clip.width as real * ops.progress(range, s.dragSel.from);
    var xposright := clip.o.x as real + clip.width as real * ops.progress(range, s.dragSel.to);
    s.(buttonFrom := MoveButton(s.buttonFrom, xposleft, ycenter),
       buttonTo := MoveButton(s.buttonTo, xposright, ycenter))
  }

  /** OnRedraw: resynchronises the local selection from the chart's, then
      re-places the handles; a no-op when the guard fails. */
  function OnRedraw(s: Selector, seriesEmpty: bool, range: Option<TimeSlice>, chartSel: TimeSlice,
                    clip: Rect, ops: Ops): (r: Selector)
    ensures !CanProceed(seriesEmpty, range) ==> r == s
    ensures CanProceed(seriesEmpty, range) ==> r.dragSel == chartSel && !NeedRedraw(r, chartSel)
    ensures r.dragFrom == s.dragFrom && r.dragTo == s.dragTo && r.minZoom == s.minZoom
  {
    if !CanProceed(seriesEmpty, range) then s
    else PlaceButtons(s.(dragSel := chartSel), clip, range.value, ops)
  }

  /** OnMouseDown: starts dragging the handle under the pointer, the From
      handle first; records whether a drag was already going on. */
  function OnMouseDown(s: Selector, xy: Point): (r: Selector)
    ensures r.dragIn <==> s.dragFrom || s.dragTo
    ensures r.dragFrom <==> s.dragFrom || IsIn(xy, s.buttonFrom)
    ensures r.dragTo <==> s.dragTo || (!IsIn(xy, s.buttonFrom) && IsIn(xy, s.buttonTo))
    ensures r.dragSel == s.dragSel && r.buttonFrom == s.buttonFrom && r.buttonTo == s.buttonTo
  {
    var s1 := s.(dragIn := s.dragFrom || s.dragTo);
    if IsIn(xy, s.buttonFrom) then s1.(dragFrom := true)
    else if IsIn(xy, s.buttonTo) then s1.(dragTo := true)
    else s1
  }

  /** OnMouseUp (and OnMouseLeave, which delegates to it): commits the local
      selection to the chart and ends any drag. Returns the new selector and
      the chart's new selected time slice. */
  function OnMouseUp(s: Selector): (r: (Selector, TimeSlice))
    ensures r.1 == s.dragSel && r.0.dragSel == s.dragSel
    ensures !r.0.dragFrom && !r.0.dragTo
    ensures !NeedRedraw(r.0, r.1)
  {
    (s.(dragFrom := false, dragTo := false), s.dragSel)
  }

  /** The clamped instant under the pointer: its rate across the clip area
      turned into a time of the axis range, bounded into that range. */
  function PointerTime(clip: Rect, range: TimeSlice, x: int, ops: Ops): (t: int)
    ensures range.from <= range.to ==> range.from <= t <= range.to
  {
    Bound(range, ops.whatTime(range, XRate(clip, x)))
  }

  /** OnMouseMove: follows the pointer with the resize-cursor flag and, while
      a handle is dragged, moves that bound to the pointer's clamped time
      unless it would come within MinZoom of the other bound. Returns the
      new selector and whether the selector redrew itself. */
  function OnMouseMove(s: Selector, xy: Point, range: Option<TimeSlice>, clip: Rect, ops: Ops): (r: (Selector, bool))
    ensures range.None? ==> r == (s, false)
    ensures range.Some? ==> r.0.isResizeCursor == (IsIn(xy, s.buttonFrom) || IsIn(xy, s.buttonTo))
    ensures !s.dragFrom && !s.dragTo ==> r.0.dragSel == s.dragSel && !r.1
    ensures r.0.dragSel != s.dragSel ==> r.1
    ensures r.0.dragFrom == s.dragFrom && r.0.dragTo == s.dragTo && r.0.minZoom == s.minZoom
    ensures range.Some? && s.dragFrom ==>
      var t := PointerTime(clip, range.value, xy.x, ops);
      (r.1 <==> t < s.dragSel.to - s.minZoom) &&
      r.0.dragSel == (if t < s.dragSel.to - s.minZoom then MoveFromAt(s.dragSel, t) else s.dragSel)
    ensures range.Some? && s.dragTo && !s.dragFrom ==>
      var t := PointerTime(clip, range.value, xy.x, ops);
      (r.1 <==> t > s.dragSel.from + s.minZoom) &&
      r.0.dragSel == (if t > s.dragSel.from + s.minZoom then MoveToAt(s.dragSel, t) else s.dragSel)
  {
    if range.None? then (s, false)
    else
      var over := IsIn(xy, s.buttonFrom) || IsIn(xy, s.buttonTo);
      var s1 := s.(isResizeCursor := over);
      if !(s.dragFrom || s.dragTo) then (s1, false)
      else
        var postime := PointerTime(clip, range.value, xy.x, ops);
        if s.dragFrom then
          if postime < s.dragSel.to - s.minZoom then
            (PlaceButtons(s1.(dragSel := MoveFromAt(s.dragSel, postime)), clip, range.value, ops), true)
          else (s1, false)
        else
          if postime > s.dragSel.from + s.minZoom then
            (PlaceButtons(s1.(dragSel := MoveToAt(s.dragSel, postime)), clip, range.value, ops), true)
          else (s1, false)
  }

  /** Dragging the From handle moves only From, to the pointer's clamped
      time, exactly when that leaves more than MinZoom before To, and keeps
      the selection otherwise. */
  lemma DragFromGuard(s: Selector, xy: Point, range: TimeSlice, clip: Rect, ops: Ops)
    requires s.dragFrom && range.from <= range.to
    ensures var n := OnMouseMove(s, xy, Some(range), clip, ops).0.dragSel;
      || n == s.dragSel
      || (n.to == s.dragSel.to && n.from == PointerTime(clip, range, xy.x, ops)
          && range.from <= n.from <= range.to && DurationOf(n).d > s.minZoom)
    ensures PointerTime(clip, range, xy.x, ops) >= s.dragSel.to - s.minZoom ==>
      OnMouseMove(s, xy, Some(range), clip, ops).0.dragSel == s.dragSel
    ensures PointerTime(clip, range, xy.x, ops) < s.dragSel.to - s.minZoom ==>
      && OnMouseMove(s, xy, Some(range), clip, ops).0.dragSel == MoveFromAt(s.dragSel, PointerTime(clip, range, xy.x, ops))
      && OnMouseMove(s, xy, Some(range), clip, ops).1
  {
  }

  /** Dragging the To handle moves only To, to the pointer's clamped time,
      exactly when that leaves more than MinZoom after From, and keeps the
      selection otherwise. */
  lemma DragToGuard(s: Selector, xy: Point, range: TimeSlice, clip: Rect, ops: Ops)
    requires s.dragTo && !s.dragFrom && range.from <= range.to
    ensures var n := OnMouseMove(s, xy, Some(range), clip, ops).0.dragSel;
      || n == s.dragSel
      || (n.from == s.dragSel.from && n.to == PointerTime(clip, range, xy.x, ops)
          && range.from <= n.to <= range.to && DurationOf(n).d > s.minZoom)
    ensures PointerTime(clip, range, xy.x, ops) <= s.dragSel.from + s.minZoom ==>
      OnMouseMove(s, xy, Some(range), clip, ops).0.dragSel == s.dragSel
    ensures PointerTime(clip, range, xy.x, ops) > s.dragSel.from + s.minZoom ==>
      && OnMouseMove(s, xy, Some(range), clip, ops).0.dragSel == MoveToAt(s.dragSel, PointerTime(clip, range, xy.x, ops))
      && OnMouseMove(s, xy, Some(range), clip, ops).1
  {
  }

  /** The wheel direction: scrolling down (positive DeltaY) gives -1, up +1. */
  function WheelDir(deltaY: real): (dir: int)
    ensures deltaY > 0.0 ==> dir == -1
    ensures deltaY < 0.0 ==> dir == 1
    ensures deltaY == 0.0 ==> dir == 0
  {
    if deltaY > 0.0 then -1 else if deltaY < 0.0 then 1 else 0
  }

  /** The zoom branch of OnWheel, after the library's ExtendFrom turned the
      selection into `s1`; `oldFrom` is From before that call and `delta`
      the signed step `timeStep * dir`. */
  function WheelZoom(s1: TimeSlice, oldFrom: int, range: TimeSlice, delta: int, minZoom: int): (r: TimeSlice)
  {
    var s2 := s1.(from := Bound(range, s1.from));
    if DurationOf(s2).d < minZoom then s2.(from := s2.to - minZoom)
    else if s2.from == oldFrom then
      var s3 := ExtendTo(s2, -delta);
      var s4 := s3.(to := Bound(range, s3.to));
      if DurationOf(s4).d < minZoom then s4.(to := s4.to + minZoom) else s4
    else s2
  }

  /** OnWheel: zooms (or pans with Shift) the local selection by a step of a
      fifth of its duration and commits it at once to the chart. Returns the
      new selector and the chart's new selection, None when the chart's
      selection is left alone. */
  function OnWheel(s: Selector, seriesEmpty: bool, range: Option<TimeSlice>, clip: Rect,
                   deltaY: real, shift: bool, ops: Ops): (r: (Selector, Option<TimeSlice>))
    ensures !CanProceed(seriesEmpty, range) || deltaY == 0.0 ==> r == (s, None)
    ensures CanProceed(seriesEmpty, range) && deltaY != 0.0 ==> r.1 == Some(r.0.dragSel) && !NeedRedraw(r.0, r.1.value)
    ensures r.0.dragFrom == s.dragFrom && r.0.dragTo == s.dragTo && r.0.minZoom == s.minZoom
  {
    if !CanProceed(seriesEmpty, range) then (s, None)
    else
      var dir := WheelDir(deltaY);
      if dir == 0 then (s, None)
      else
        var timeStep := ops.adjust(DurationOf(s.dragSel).d, 0.2);
        var sel :=
          if shift then ops.shiftIn(s.dragSel, timeStep * dir, range.value)
          else WheelZoom(ops.extendFrom(s.dragSel, timeStep * dir), s.dragSel.from, range.value, timeStep * dir, s.minZoom);
        var n := PlaceButtons(s.(dragSel := sel), clip, range.value, ops);
        (n, Some(sel))
  }

  /** A wheel zoom first clamps From into the axis range; if that leaves less
      than MinZoom, From is set to exactly To - MinZoom; if From moved, that
      clamped From is kept with the library's To. */
  lemma WheelZoomFrom(s1: TimeSlice, oldFrom: int, range: TimeSlice, delta: int, minZoom: int)
    requires range.from <= range.to
    ensures var b := Bound(range, s1.from);
      var r := WheelZoom(s1, oldFrom, range, delta, minZoom);
      && range.from <= b <= range.to
      && (s1.to - b < minZoom ==> r.from == r.to - minZoom && r.to == s1.to && DurationOf(r).d == minZoom)
      && (s1.to - b >= minZoom && b != oldFrom ==> r == TimeSlice(b, s1.to))
  {
    var s2 := s1.(from := Bound(range, s1.from));
    assert DurationOf(s2).d == s1.to - Bound(range, s1.from);
  }

  /** When the clamped From is where it was and leaves at least MinZoom, the
      zoom works on To instead: To is clamped into the range and, if the
      selection became shorter than MinZoom, pushed MinZoom further. */
  lemma WheelZoomTo(s1: TimeSlice, oldFrom: int, range: TimeSlice, delta: int, minZoom: int)
    requires range.from <= range.to
    requires s1.to - Bound(range, s1.from) >= minZoom
    requires Bound(range, s1.from) == oldFrom
    ensures var t := Bound(range, s1.to - delta);
      var r := WheelZoom(s1, oldFrom, range, delta, minZoom);
      && r.from == oldFrom
      && (r.to == t || r.to == t + minZoom)
      && range.from <= t <= range.to
      && (t >= oldFrom ==> DurationOf(r).d >= minZoom)
  {
    var s2 := s1.(from := Bound(range, s1.from));
    assert s2 == TimeSlice(oldFrom, s1.to);
    var s3 := ExtendTo(s2, -delta);
    assert s3 == TimeSlice(oldFrom, s1.to - delta);
  }
}
