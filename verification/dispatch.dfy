/** The event dispatcher of a layer: a pointer event reaches the layer only
    if one of its drawings handles that kind (and, for a press, only inside
    the clip area); every drawing with a handler runs it in stack order; the
    chart's selection is then compared with a snapshot taken before the
    handlers ran, and the changes are propagated and notified. */
module Dispatch {
  import opened Wrappers
  import opened Geo2d
  import opened Timeline
  import opened StockSerie
  import opened DrawingPrimitives
  import opened EventHandler
  import opened Drawings
  import opened Layers
  import opened Charts
  import TimeSelector

  /** A pointer event: its kind, the pointer position, the wheel delta and
      the Shift key. */
  datatype Pointer = Pointer(ev: Event, xy: Point, deltaY: real, shift: bool)

  /** The dispatcher exists only for a present layer. */
  predicate ValidLayer(c: Chart, li: nat) {
    li < |c.layers| && c.layers[li].Some?
  }

  /** The chart with drawing j of layer li replaced by a selector state. */
  function SetSelector(c: Chart, li: nat, j: nat, s: TimeSelector.Selector): (r: Chart)
    requires ValidLayer(c, li) && j < |c.layers[li].value.drawings|
    ensures ValidLayer(r, li) && |r.layers| == |c.layers|
    ensures |r.layers[li].value.drawings| == |c.layers[li].value.drawings|
    ensures r == c.(layers := r.layers)
  {
    var l := c.layers[li].value;
    c.(layers := c.layers[li := Some(l.(drawings := l.drawings[j := l.drawings[j].(kind := SelectorKind(s))]))])
  }

  /** The time selector's handlers: a press may start a drag, a release or a
      leave commits the local selection, a move drags a handle (and repaints
      the layer when the selection moved), a wheel zooms or pans and commits.
      Returns the new selector state, the chart's selection after the
      handler and the layer repaint asked for, if any. */
  function SelectorStep(s: TimeSelector.Selector, p: Pointer, seriesEmpty: bool, range: Option<TimeSlice>,
                        clip: Rect, chartSel: TimeSlice, ops: Ops): (r: (TimeSelector.Selector, TimeSlice, bool))
    ensures p.ev == MouseDown || p.ev == MouseMove ==> r.1 == chartSel
    ensures p.ev == Wheel && r.2 ==> r.1 == r.0.dragSel
    ensures (p.ev == MouseUp || p.ev == MouseLeave) ==> !r.2 && r.1 == s.dragSel && !r.0.dragFrom && !r.0.dragTo
  {
    match p.ev
    case MouseDown => (TimeSelector.OnMouseDown(s, p.xy), chartSel, false)
    case MouseMove =>
      var m := TimeSelector.OnMouseMove(s, p.xy, range, clip, ops);
      (m.0, chartSel, m.1)
    case Wheel =>
      var w := TimeSelector.OnWheel(s, seriesEmpty, range, clip, p.deltaY, p.shift, ops);
      (w.0, w.1.GetOr(chartSel), w.1.Some?)
    case _ =>
      // MouseUp and MouseLeave
      var u := TimeSelector.OnMouseUp(s);
      (u.0, u.1, false)
  }

  /** The chart after the selector of drawing j ran its handler. */
  function SelectorHandle(c: Chart, li: nat, j: nat, s: TimeSelector.Selector, p: Pointer, env: Env): (r: (Chart, seq<Effect>))
    requires ValidLayer(c, li) && j < |c.layers[li].value.drawings|
    ensures ValidLayer(r.0, li) && |r.0.layers| == |c.layers|
    ensures |r.0.layers[li].value.drawings| == |c.layers[li].value.drawings|
    ensures r.0 == c.(layers := r.0.layers, selectedTimeSlice := r.0.selectedTimeSlice)
    ensures Quiet(r.1)
  {
    var l := c.layers[li].value;
    var st := SelectorStep(s, p, IsEmpty(Resolve(l.drawings[j].series, c.mainSeries)), RangeOf(c, l.xRef),
                           l.clip, c.selectedTimeSlice, env.ops);
    var c1 := SetSelector(c, li, j, st.0);
    (c1.(selectedTimeSlice := st.1), if st.2 then [LocalRedraw(l.name, j)] else [])
  }

  /** Drawing j's handler for the event, if it has one. Only the time
      selector's handlers are modelled; a custom drawing's handlers are
      closures the model does not see. */
  function Handle(c: Chart, li: nat, j: nat, p: Pointer, env: Env): (r: (Chart, seq<Effect>))
    requires ValidLayer(c, li) && j < |c.layers[li].value.drawings|
    ensures ValidLayer(r.0, li) && |r.0.layers| == |c.layers|
    ensures |r.0.layers[li].value.drawings| == |c.layers[li].value.drawings|
    ensures r.0 == c.(layers := r.0.layers, selectedTimeSlice := r.0.selectedTimeSlice)
    ensures Quiet(r.1)
    ensures p.ev !in HandlersOf(c.layers[li].value.drawings[j]) ==> r == (c, [])
  {
    var d := c.layers[li].value.drawings[j];
    if p.ev !in HandlersOf(d) then (c, [])
    else match d.kind
      case SelectorKind(s) => SelectorHandle(c, li, j, s, p, env)
      case _ => (c, [])
  }

  /** The handler loop from drawing j on. */
  function HandleFrom(c: Chart, li: nat, j: nat, p: Pointer, env: Env): (r: (Chart, seq<Effect>))
    requires ValidLayer(c, li) && j <= |c.layers[li].value.drawings|
    ensures ValidLayer(r.0, li) && |r.0.layers| == |c.layers|
    ensures r.0 == c.(layers := r.0.layers, selectedTimeSlice := r.0.selectedTimeSlice)
    ensures Quiet(r.1)
    decreases |c.layers[li].value.drawings| - j
  {
    if j == |c.layers[li].value.drawings| then (c, [])
    else
      var h := Handle(c, li, j, p, env);
      var rest := HandleFrom(h.0, li, j + 1, p, env);
      (rest.0, h.1 + rest.1)
  }

  /** processSelChange: the time-slice change is propagated (and notified)
      when the library compares the snapshot DIFFERENT from the current
      selection; the data change when the selected data differs from the
      snapshot. */
  function ProcessSelChange(c: Chart, oldsel: TimeSlice, olddata: Option<DataStock>, env: Env): (r: (Chart, seq<Effect>))
    ensures NotifiesTimeSlice(r.1) <==> env.ops.compare(oldsel, c.selectedTimeSlice) == DIFFERENT && c.notifyTimeSlice
    ensures NotifiesData(r.1) <==> olddata != c.selectedData && c.notifyData
    ensures env.ops.compare(oldsel, c.selectedTimeSlice) == DIFFERENT ==>
      r.0.selectedTimeSlice == SelectionFor(c.timeRange, c.selectedTimeSlice)
    ensures env.ops.compare(oldsel, c.selectedTimeSlice) != DIFFERENT ==> r.0.selectedTimeSlice == c.selectedTimeSlice
    ensures r.0.selectedData == c.selectedData && r.0.timeRange == c.timeRange
  {
    var t := if env.ops.compare(oldsel, c.selectedTimeSlice) == DIFFERENT
             then DoChangeSelTimeSlice(c, c.mainSeries.name, c.selectedTimeSlice, true, env)
             else (c, []);
    var d := if olddata != t.0.selectedData
             then DoChangeSelData(t.0, t.0.mainSeries.name, t.0.selectedData, true, env)
             else (t.0, []);
    NotesOfConcat(t.1, d.1);
    (d.0, t.1 + d.1)
  }

  /** Whether the layer's listener for the event is installed and lets it
      through: a press only inside the clip area. */
  predicate Reaches(l: Layer, p: Pointer) {
    Has(Handled(l), p.ev) && (p.ev != MouseDown || IsIn(p.xy, l.clip))
  }

  /** The dispatcher of layer li for one pointer event. */
  function DispatchEvent(c: Chart, li: nat, p: Pointer, env: Env): (r: (Chart, seq<Effect>))
    requires ValidLayer(c, li)
    ensures !Reaches(c.layers[li].value, p) ==> r == (c, [])
    ensures Reaches(c.layers[li].value, p) ==>
      var h := HandleFrom(c, li, 0, p, env);
      && (NotifiesTimeSlice(r.1) <==>
           env.ops.compare(c.selectedTimeSlice, h.0.selectedTimeSlice) == DIFFERENT && c.notifyTimeSlice)
      && (NotifiesData(r.1) <==> c.selectedData != h.0.selectedData && c.notifyData)
  {
    if !Reaches(c.layers[li].value, p) then (c, [])
    else
      var h := HandleFrom(c, li, 0, p, env);
      var s := ProcessSelChange(h.0, c.selectedTimeSlice, c.selectedData, env);
      NotesOfConcat(h.1, s.1);
      (s.0, h.1 + s.1)
  }
}
