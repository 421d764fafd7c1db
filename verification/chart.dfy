/** The chart: six optional layers over one main series, the overall time
    range, the selected time slice and data, and the redraw, selection and
    layout rules that tie them together. */
module Charts {
  import opened Wrappers
  import opened Num
  import opened Geo2d
  import opened Timeline
  import opened StockSerie
  import opened DrawingPrimitives
  import opened Drawings
  import opened Layers

  const LayerCount: nat := 6

  /** The layout constants of Resize. */
  const SizeNav: int := 70
  const SizeYScale: int := 80
  const Margin: int := 3

  datatype Chart = Chart(
    layers: seq<Option<Layer>>,
    isDrawing: bool,                  // a redraw is in progress
    mainSeries: DataList,
    timeRange: TimeSlice,
    selectedTimeSlice: TimeSlice,     // zero when none
    selectedData: Option<DataStock>,
    localZone: bool,
    notifyTimeSlice: bool,            // a time-slice callback is installed
    notifyData: bool)                 // a data callback is installed

  /** The axis range a layer's reference designates. */
  function RangeOf(c: Chart, x: XRef): Option<TimeSlice> {
    match x
    case NoRange => None
    case TimeRange => Some(c.timeRange)
    case Selection => Some(c.selectedTimeSlice)
  }

  function ViewOf(c: Chart, l: Layer, env: Env): View {
    View(c.mainSeries, RangeOf(c, l.xRef), c.selectedTimeSlice, c.selectedData, c.localZone, l.clip, env)
  }

  /** The concatenation of traces, in order. */
  function Flatten(ts: seq<seq<Effect>>): seq<Effect> {
    if |ts| == 0 then [] else Flatten(ts[..|ts| - 1]) + ts[|ts| - 1]
  }

  /** Where trace i starts in the concatenation. */
  function Offset(ts: seq<seq<Effect>>, i: nat): nat
    requires i <= |ts|
  {
    |Flatten(ts[..i])|
  }

  /** Effect a of trace i sits at Offset(i) + a of the concatenation, and
      every effect of an earlier trace comes before it. */
  lemma {:induction false} FlattenAt(ts: seq<seq<Effect>>, i: nat, a: nat)
    requires i < |ts| && a < |ts[i]|
    ensures Offset(ts, i) + a < |Flatten(ts)| && Flatten(ts)[Offset(ts, i) + a] == ts[i][a]
    ensures Offset(ts, i) + |ts[i]| <= |Flatten(ts)|
    decreases |ts|
  {
    var n := |ts| - 1;
    var front := Flatten(ts[..n]);
    assert Flatten(ts) == front + ts[n];
    if i < n {
      assert ts[..n][..i] == ts[..i];
      assert ts[..n][i] == ts[i];
      FlattenAt(ts[..n], i, a);
      assert Offset(ts, i) == Offset(ts[..n], i);
      assert Flatten(ts)[Offset(ts, i) + a] == front[Offset(ts, i) + a];
    } else {
      assert Offset(ts, i) == |front|;
    }
  }

  lemma {:induction false} OffsetMonotone(ts: seq<seq<Effect>>, i: nat, j: nat)
    requires i < j <= |ts|
    ensures Offset(ts, i) + |ts[i]| <= Offset(ts, j)
    decreases j - i
  {
    assert ts[..i + 1][..i] == ts[..i];
    if j > i + 1 {
      OffsetMonotone(ts, i + 1, j);
      assert ts[..i + 2][..i + 1] == ts[..i + 1];
    }
  }

  /** An effect of trace i precedes, in the concatenation, every effect of a
      later trace j. */
  lemma FlattenInOrder(ts: seq<seq<Effect>>, i: nat, j: nat, a: nat, b: nat)
    requires i < j < |ts| && a < |ts[i]| && b < |ts[j]|
    ensures Offset(ts, i) + a < Offset(ts, j) + b < |Flatten(ts)|
    ensures Flatten(ts)[Offset(ts, i) + a] == ts[i][a] && Flatten(ts)[Offset(ts, j) + b] == ts[j][b]
  {
    FlattenAt(ts, i, a);
    FlattenAt(ts, j, b);
    OffsetMonotone(ts, i, j);
  }

  datatype Mode = Everything | OnlyNeeds

  /** One layer's part of a chart redraw. */
  function LayerPass(c: Chart, env: Env, mode: Mode, i: nat): (r: (Option<Layer>, seq<Effect>))
    requires i < |c.layers|
  {
    match c.layers[i]
    case None => (None, [])
    case Some(l) =>
      var p := if mode == Everything then Layers.Redraw(l, ViewOf(c, l, env)) else Layers.RedrawOnlyNeeds(l, ViewOf(c, l, env));
      (Some(p.0), p.1)
  }

  /** Each layer pass in isolation: empty for a missing layer, the layer's
      own redraw otherwise. */
  predicate LayersPassed(c: Chart, env: Env, mode: Mode, ls: seq<Option<Layer>>) {
    && |ls| == |c.layers|
    && forall i :: 0 <= i < |ls| ==> ls[i] == LayerPass(c, env, mode, i).0
  }

  function Traces(c: Chart, env: Env, mode: Mode): (ts: seq<seq<Effect>>)
    ensures |ts| == |c.layers| && forall i :: 0 <= i < |ts| ==> ts[i] == LayerPass(c, env, mode, i).1
  {
    seq(|c.layers|, i requires 0 <= i < |c.layers| => LayerPass(c, env, mode, i).1)
  }

  lemma {:induction false} FlattenQuiet(ts: seq<seq<Effect>>)
    requires forall i :: 0 <= i < |ts| ==> Quiet(ts[i])
    ensures Quiet(Flatten(ts))
    decreases |ts|
  {
    if |ts| > 0 {
      var n := |ts| - 1;
      assert forall i :: 0 <= i < n ==> ts[..n][i] == ts[i];
      FlattenQuiet(ts[..n]);
    }
  }

  lemma PassesQuiet(c: Chart, env: Env, mode: Mode)
    ensures Quiet(Flatten(Traces(c, env, mode)))
  {
    var ts := Traces(c, env, mode);
    forall i | 0 <= i < |ts|
      ensures Quiet(ts[i])
    {
      if c.layers[i].Some? {
        var l := c.layers[i].value;
        if mode == Everything {
          assert Quiet(Layers.Redraw(l, ViewOf(c, l, env)).1);
        } else {
          assert Quiet(Layers.RedrawOnlyNeeds(l, ViewOf(c, l, env)).1);
        }
      }
    }
    FlattenQuiet(ts);
  }

  /** Every present layer's drawings keep their series. */
  predicate LayersSameSeries(a: seq<Option<Layer>>, b: seq<Option<Layer>>) {
    && |a| == |b|
    && forall i :: 0 <= i < |a| ==>
         && (a[i].None? <==> b[i].None?)
         && (a[i].Some? ==> SameSeries(a[i].value.drawings, b[i].value.drawings))
  }

  lemma LayersSameSeriesTrans(a: seq<Option<Layer>>, b: seq<Option<Layer>>, c: seq<Option<Layer>>)
    requires LayersSameSeries(a, b) && LayersSameSeries(b, c)
    ensures LayersSameSeries(a, c)
  {
    forall i | 0 <= i < |a| && a[i].Some?
      ensures SameSeries(a[i].value.drawings, c[i].value.drawings)
    {
      assert SameSeries(a[i].value.drawings, b[i].value.drawings);
      assert SameSeries(b[i].value.drawings, c[i].value.drawings);
    }
  }

  /** A full or needs-only redraw of the chart: refused, with the chart
      unchanged, while another is in progress; otherwise every present layer
      is passed in index order and the flag is clear again at the end. */
  function RedrawPass(c: Chart, env: Env, mode: Mode): (r: (Chart, seq<Effect>))
    ensures c.isDrawing ==> r == (c, [Dropped])
    ensures !c.isDrawing ==> && r.0 == c.(layers := r.0.layers, isDrawing := false)
                             && LayersPassed(c, env, mode, r.0.layers)
                             && r.1 == Flatten(Traces(c, env, mode))
                             && Quiet(r.1)
    ensures LayersSameSeries(c.layers, r.0.layers)
  {
    if c.isDrawing then (c, [Dropped])
    else
      var ls := seq(|c.layers|, i requires 0 <= i < |c.layers| => LayerPass(c, env, mode, i).0);
      PassesQuiet(c, env, mode);
      (c.(layers := ls, isDrawing := false), Flatten(Traces(c, env, mode)))
  }

  function Redraw(c: Chart, env: Env): (r: (Chart, seq<Effect>))
    ensures r == RedrawPass(c, env, Everything)
    ensures !r.0.isDrawing || c.isDrawing
    ensures r.0 == c.(layers := r.0.layers, isDrawing := r.0.isDrawing)
    ensures LayersSameSeries(c.layers, r.0.layers)
    ensures Quiet(r.1)
  {
    RedrawPass(c, env, Everything)
  }

  function RedrawOnlyNeeds(c: Chart, env: Env): (r: (Chart, seq<Effect>))
    ensures r == RedrawPass(c, env, OnlyNeeds)
    ensures !r.0.isDrawing || c.isDrawing
    ensures r.0 == c.(layers := r.0.layers, isDrawing := r.0.isDrawing)
    ensures LayersSameSeries(c.layers, r.0.layers)
    ensures Quiet(r.1)
  {
    RedrawPass(c, env, OnlyNeeds)
  }

  /** A notification is sent exactly when the caller asks and a callback is
      installed; it then closes the trace. */
  function Notify(trace: seq<Effect>, want: bool, e: Effect): (t: seq<Effect>)
    ensures want ==> t == trace + [e]
    ensures !want ==> t == trace
  {
    if want then trace + [e] else trace
  }

  /** The slice DoChangeSelTimeSlice stores: the whole range for a zero
      slice, otherwise the slice bounded into the range. */
  function SelectionFor(timeRange: TimeSlice, newts: TimeSlice): (s: TimeSlice)
    ensures timeRange.from <= timeRange.to ==>
      timeRange.from <= s.from <= timeRange.to && timeRange.from <= s.to <= timeRange.to
    ensures IsZero(newts) ==> s == timeRange
    ensures !IsZero(newts) && timeRange.from <= newts.from <= timeRange.to && timeRange.from <= newts.to <= timeRange.to ==> s == newts
  {
    if IsZero(newts) then timeRange else BoundIn(timeRange, newts)
  }

  /** DoChangeSelTimeSlice: stores the new selection, redraws what needs it
      and notifies when asked to and a callback is installed. */
  function DoChangeSelTimeSlice(c: Chart, pair: string, newts: TimeSlice, fNotify: bool, env: Env): (r: (Chart, seq<Effect>))
    ensures var c1 := c.(selectedTimeSlice := SelectionFor(c.timeRange, newts));
      var rd := RedrawOnlyNeeds(c1, env);
      && r.0 == rd.0
      && r.1 == Notify(rd.1, fNotify && c.notifyTimeSlice, NotifiedTimeSlice(pair, SelectionFor(c.timeRange, newts)))
    ensures r.0.selectedTimeSlice == SelectionFor(c.timeRange, newts)
    ensures r.0 == c.(layers := r.0.layers, selectedTimeSlice := r.0.selectedTimeSlice, isDrawing := r.0.isDrawing)
    ensures LayersSameSeries(c.layers, r.0.layers)
    ensures NotifiesTimeSlice(r.1) <==> fNotify && c.notifyTimeSlice
    ensures !NotifiesData(r.1)
  {
    var sel := SelectionFor(c.timeRange, newts);
    var rd := RedrawOnlyNeeds(c.(selectedTimeSlice := sel), env);
    var e := NotifiedTimeSlice(pair, sel);
    NotesOfConcat(rd.1, [e]);
    assert NotifiesTimeSlice([e]) && !NotifiesData([e]) by {
      assert [e][0] == e;
    }
    (rd.0, Notify(rd.1, fNotify && c.notifyTimeSlice, e))
  }

  /** DoChangeSelData: stores the new selected data, redraws what needs it
      and notifies when asked to and a callback is installed. */
  function DoChangeSelData(c: Chart, pair: string, newdata: Option<DataStock>, fNotify: bool, env: Env): (r: (Chart, seq<Effect>))
    ensures r.0.selectedData == newdata
    ensures r.0 == c.(layers := r.0.layers, selectedData := newdata, isDrawing := r.0.isDrawing)
    ensures r.0 == RedrawOnlyNeeds(c.(selectedData := newdata), env).0
    ensures NotifiesData(r.1) <==> fNotify && c.notifyData
    ensures fNotify && c.notifyData ==> r.1[|r.1| - 1] == NotifiedData(pair, newdata)
    ensures !NotifiesTimeSlice(r.1)
  {
    var rd := RedrawOnlyNeeds(c.(selectedData := newdata), env);
    var e := NotifiedData(pair, newdata);
    NotesOfConcat(rd.1, [e]);
    assert NotifiesData([e]) && !NotifiesTimeSlice([e]) by {
      assert [e][0] == e;
    }
    (rd.0, Notify(rd.1, fNotify && c.notifyData, e))
  }

  /** DoChangeTimeZone: stores the zone flag and redraws what needs it. */
  function DoChangeTimeZone(c: Chart, localZone: bool, env: Env): (r: (Chart, seq<Effect>))
    ensures r.0.localZone == localZone
    ensures r.0 == c.(layers := r.0.layers, localZone := localZone, isDrawing := r.0.isDrawing)
    ensures Quiet(r.1)
  {
    RedrawOnlyNeeds(c.(localZone := localZone), env)
  }

  /** The range SetTimeRange installs: To is pushed out by the duration
      times the rate, truncated to whole nanoseconds, only for a finite
      range and a positive rate. */
  function ExtendedRange(timerange: TimeSlice, extendrate: real): (r: TimeSlice)
    ensures r.from == timerange.from
    ensures DurationOf(timerange).isFinite && extendrate > 0.0 ==>
      r.to == timerange.to + Trunc(DurationOf(timerange).d as real * extendrate)
    ensures !(DurationOf(timerange).isFinite && extendrate > 0.0) ==> r == timerange
  {
    if DurationOf(timerange).isFinite && extendrate > 0.0 then
      ExtendTo(timerange, Trunc(DurationOf(timerange).d as real * extendrate))
    else timerange
  }

  /** The selection must be reset: none, or sticking out of the range. */
  predicate SelNeedsUpdate(sel: TimeSlice, range: TimeSlice) {
    IsZero(sel) || sel.from < range.from || sel.to > range.to
  }

  /** SetTimeRange: installs the (extended) range and, when the selection
      is zero or sticks out of it, resets the selection to the whole range
      without notifying. Returns the installed range. */
  function SetTimeRange(c: Chart, timerange: TimeSlice, extendrate: real, env: Env): (r: (Chart, seq<Effect>, TimeSlice))
    ensures r.2 == ExtendedRange(timerange, extendrate) && r.0.timeRange == r.2
    ensures !SelNeedsUpdate(c.selectedTimeSlice, r.2) ==> r.0 == c.(timeRange := r.2) && r.1 == []
    ensures SelNeedsUpdate(c.selectedTimeSlice, r.2) ==>
      r.0.selectedTimeSlice == SelectionFor(r.2, r.2) && Quiet(r.1)
    ensures r.0 == c.(layers := r.0.layers, timeRange := r.2, selectedTimeSlice := r.0.selectedTimeSlice, isDrawing := r.0.isDrawing)
    ensures LayersSameSeries(c.layers, r.0.layers)
  {
    var range := ExtendedRange(timerange, extendrate);
    var c1 := c.(timeRange := range);
    if SelNeedsUpdate(c.selectedTimeSlice, range) then
      var d := DoChangeSelTimeSlice(c1, c.mainSeries.name, range, false, env);
      (d.0, d.1, range)
    else (c1, [], range)
  }

  /** After SetTimeRange with a well-ordered range, the selection is a
      non-zero slice inside the range, or the whole range itself. */
  lemma SetTimeRangeKeepsSelectionInside(c: Chart, timerange: TimeSlice, extendrate: real, env: Env)
    requires ExtendedRange(timerange, extendrate).from <= ExtendedRange(timerange, extendrate).to
    ensures var r := SetTimeRange(c, timerange, extendrate, env);
      && r.2.from <= r.0.selectedTimeSlice.from && r.0.selectedTimeSlice.to <= r.2.to
      && (SelNeedsUpdate(c.selectedTimeSlice, r.2) ==> r.0.selectedTimeSlice == r.2)
  {
    var range := ExtendedRange(timerange, extendrate);
    if SelNeedsUpdate(c.selectedTimeSlice, range) && !IsZero(range) {
      assert BoundIn(range, range) == range;
    }
  }

  /** The rectangle of each layout inside the master element. */
  function LayoutArea(layout: Layout, x: int, y: int, w: int, h: int): Rect {
    match layout
    case Full => Rect(Point(x, y), w, h)
    case NavBar => Rect(Point(x, y + h - SizeNav), w - SizeYScale, SizeNav)
    case YScale => Rect(Point(x + w - SizeYScale, y), SizeYScale, h - SizeNav - Margin)
    case Graph => Rect(Point(x, y), w - SizeYScale, h - SizeNav - Margin)
  }

  /** The layouts tile the master element: the graph sits above the
      navigation bar with a 3-pixel margin, the y scale to the right of the
      graph with the same height, and the graph and the bar share the same
      columns; with room enough, all three lie inside the full area. */
  lemma LayoutTiles(x: int, y: int, w: int, h: int)
    ensures var full := LayoutArea(Full, x, y, w, h);
      var g := LayoutArea(Graph, x, y, w, h);
      var n := LayoutArea(NavBar, x, y, w, h);
      var s := LayoutArea(YScale, x, y, w, h);
      && End(g).x == s.o.x && g.o.y == s.o.y && g.height == s.height
      && n.o.y == End(g).y + Margin && g.o.x == n.o.x && g.width == n.width
      && End(n).y == End(full).y && End(s).x == End(full).x
      && (w >= SizeYScale && h >= SizeNav + Margin ==> Within(g, full) && Within(n, full) && Within(s, full))
  {
  }

  /** One layer's part of a chart resize. */
  function ResizeLayer(c: Chart, l: Layer, x: int, y: int, w: int, h: int, dpr: real, env: Env): (r: (Layer, seq<Effect>))
    ensures r.0.clip.o == Point(0, l.clip.o.y) && r.0.layout == l.layout
  {
    Layers.Resize(l, LayoutArea(l.layout, x, y, w, h), dpr, ViewOf(c, l, env))
  }

  /** Resize: a no-op for a master element without width or height;
      otherwise every present layer is sized from its layout (and redrawn by
      its own Resize), in index order, whether or not a redraw is running. */
  function Resize(c: Chart, mx: real, my: real, mw: real, mh: real, dpr: real, env: Env): (r: (Chart, seq<Effect>))
    ensures mw <= 0.0 || mh <= 0.0 ==> r == (c, [])
    ensures mw > 0.0 && mh > 0.0 ==>
      && r.0 == c.(layers := r.0.layers) && |r.0.layers| == |c.layers|
      && forall i :: 0 <= i < |c.layers| ==>
           (c.layers[i].None? <==> r.0.layers[i].None?)
           && (c.layers[i].Some? ==>
                 r.0.layers[i].value == ResizeLayer(c, c.layers[i].value, Trunc(mx), Trunc(my), Trunc(mw), Trunc(mh), dpr, env).0)
  {
    if mw <= 0.0 || mh <= 0.0 then (c, [])
    else
      var x, y, w, h := Trunc(mx), Trunc(my), Trunc(mw), Trunc(mh);
      var passes := seq(|c.layers|, i requires 0 <= i < |c.layers| =>
        if c.layers[i].None? then (None, []) else
          var p := ResizeLayer(c, c.layers[i].value, x, y, w, h, dpr, env); (Some(p.0), p.1));
      (c.(layers := seq(|c.layers|, i requires 0 <= i < |c.layers| => passes[i].0)),
       Flatten(seq(|c.layers|, i requires 0 <= i < |c.layers| => passes[i].1)))
  }

  /** Unbinds every drawing not bound to the main series. */
  function DetachSubSeries(ls: seq<Option<Layer>>): (r: seq<Option<Layer>>)
    ensures |r| == |ls|
    ensures forall i :: 0 <= i < |ls| ==> (ls[i].None? <==> r[i].None?)
    ensures forall i :: 0 <= i < |ls| && ls[i].Some? ==>
      && r[i].value == ls[i].value.(drawings := r[i].value.drawings)
      && |r[i].value.drawings| == |ls[i].value.drawings|
      && forall j :: 0 <= j < |ls[i].value.drawings| ==>
           var d := ls[i].value.drawings[j];
           r[i].value.drawings[j] == d.(series := if d.series.MainSeries? then MainSeries else NoSeries)
  {
    seq(|ls|, i requires 0 <= i < |ls| =>
      match ls[i]
      case None => None
      case Some(l) =>
        Some(l.(drawings := seq(|l.drawings|, j requires 0 <= j < |l.drawings| =>
          l.drawings[j].(series := if l.drawings[j].series.MainSeries? then MainSeries else NoSeries)))))
  }

  /** ResetMainSeries: unbinds the drawings of other series, installs the
      new main series and its time range, then redraws on request. */
  function ResetMainSeries(c: Chart, series: DataList, extendrate: real, redrawNow: bool, env: Env): (r: (Chart, seq<Effect>))
    ensures r.0.mainSeries == series
    ensures r.0.timeRange == ExtendedRange(TimeSliceOf(series), extendrate)
    ensures LayersSameSeries(DetachSubSeries(c.layers), r.0.layers)
    ensures Quiet(r.1)
  {
    var c1 := c.(layers := DetachSubSeries(c.layers), mainSeries := series);
    var s := SetTimeRange(c1, TimeSliceOf(series), extendrate, env);
    assert Quiet(s.1);
    if redrawNow then
      var rd := Redraw(s.0, env);
      LayersSameSeriesTrans(c1.layers, s.0.layers, rd.0.layers);
      QuietConcat(s.1, rd.1);
      (rd.0, s.1 + rd.1)
    else (s.0, s.1)
  }
}
