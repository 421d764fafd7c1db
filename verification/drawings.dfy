/** The drawings a layer stacks, as one datatype: the state each kind keeps
    between redraws, its NeedRedraw predicate, the handlers it installs and
    the state its OnRedraw leaves behind. */
module Drawings {
  import opened Wrappers
  import opened Geo2d
  import opened Timeline
  import opened StockSerie
  import opened DrawingPrimitives
  import opened EventHandler
  import Datarange
  import TimeSelector
  import Bars
  import SeriesLine
  import VLines
  import YGrid

  /** The kind of a drawing and the state it keeps between redraws. A custom
      drawing is one assembled by the host with its own callbacks, of which
      only the presence is known. */
  datatype Kind =
    | CandlesKind
    | BarsKind(lastSel: TimeSlice)
    | SeriesKind(fill: bool, lastSelected: Option<DataStock>)
    | VLinesKind(timeSelDependant: bool, lastLocalZone: bool)
    | XGridKind(fullGrid: bool, timeSelDependant: bool)
    | YGridKind(fScale: bool, lastyrange: Datarange.DataRange)
    | SelectorKind(selector: TimeSelector.Selector)
    | CustomKind(hasOnRedraw: bool, need: Option<bool>, handlers: set<Event>)

  /** A drawing: its kind, the series it draws, its draw area, its
      background colour (an RGBA value) and the name of its parent layer. */
  datatype Drawing = Drawing(name: string, kind: Kind, series: SeriesRef, drawArea: Rect,
                             bgColor: int, parent: Option<string>)

  /** The external libraries' operations. */
  datatype Env = Env(ops: Timeline.Ops, dops: Datarange.Ops)

  /** What a drawing reads from its chart and layer: the main series, the
      layer's axis range, the chart's selections and zone flag, the layer's
      clip area. */
  datatype View = View(main: DataList, range: Option<TimeSlice>, chartSel: TimeSlice,
                       selected: Option<DataStock>, localZone: bool, clip: Rect, env: Env)

  function SeriesOf(d: Drawing, v: View): DataList {
    Resolve(d.series, v.main)
  }

  /** The drawing's redraw guard passes. */
  predicate Proceeds(d: Drawing, v: View) {
    CanProceed(IsEmpty(SeriesOf(d, v)), v.range)
  }

  /** The handlers a drawing installs: the time selector handles down, up,
      move, leave (as up) and wheel. */
  function HandlersOf(d: Drawing): set<Event> {
    match d.kind
    case SelectorKind(_) => {MouseDown, MouseUp, MouseMove, MouseLeave, Wheel}
    case CustomKind(_, _, handlers) => handlers
    case _ => {}
  }

  predicate HasOnRedraw(d: Drawing) {
    !d.kind.CustomKind? || d.kind.hasOnRedraw
  }

  /** The drawing's NeedRedraw, None when it has none. */
  function NeedRedraw(d: Drawing, v: View): Option<bool> {
    match d.kind
    case CandlesKind => Some(true)
    case BarsKind(lastSel) => Some(Bars.NeedRedraw(lastSel, v.chartSel, v.env.ops))
    case SeriesKind(_, lastSelected) => Some(SeriesLine.NeedRedraw(lastSelected, v.selected, v.env.ops))
    case VLinesKind(tsd, lastLocalZone) => Some(VLines.NeedRedraw(tsd, lastLocalZone, v.localZone))
    case XGridKind(_, tsd) => Some(tsd)
    case YGridKind(_, lastyrange) =>
      Some(YGrid.NeedRedraw(SeriesOf(d, v), v.chartSel, lastyrange, v.env.ops, v.env.dops))
    case SelectorKind(s) => Some(TimeSelector.NeedRedraw(s, v.chartSel))
    case CustomKind(_, need, _) => need
  }

  /** The drawing as its OnRedraw leaves it. Bars and vertical lines record
      the selection and the zone flag before drawing; the series and the
      value grid record theirs only when the guard passes; the selector
      resynchronises from the chart. */
  function AfterRedraw(d: Drawing, v: View): (r: Drawing)
    ensures r == d.(kind := r.kind)
    ensures r.kind.CandlesKind? == d.kind.CandlesKind? && r.kind.BarsKind? == d.kind.BarsKind?
    ensures r.kind.SeriesKind? == d.kind.SeriesKind? && r.kind.VLinesKind? == d.kind.VLinesKind?
    ensures r.kind.XGridKind? == d.kind.XGridKind? && r.kind.YGridKind? == d.kind.YGridKind?
    ensures r.kind.SelectorKind? == d.kind.SelectorKind? && r.kind.CustomKind? == d.kind.CustomKind?
    ensures HandlersOf(r) == HandlersOf(d) && HasOnRedraw(r) == HasOnRedraw(d)
    ensures !Proceeds(d, v) && !d.kind.BarsKind? && !d.kind.VLinesKind? ==> r == d
  {
    match d.kind
    case BarsKind(_) => d.(kind := BarsKind(v.chartSel))
    case VLinesKind(tsd, _) => d.(kind := VLinesKind(tsd, v.localZone))
    case SeriesKind(fill, lastSelected) =>
      if Proceeds(d, v) then d.(kind := SeriesKind(fill, v.selected)) else d
    case YGridKind(fScale, lastyrange) =>
      if Proceeds(d, v) then d.(kind := YGridKind(fScale, DataRange(SeriesOf(d, v), v.env.ops, v.env.dops, Some(v.chartSel), 10)))
      else d
    case SelectorKind(s) =>
      d.(kind := SelectorKind(TimeSelector.OnRedraw(s, IsEmpty(SeriesOf(d, v)), v.range, v.chartSel, v.clip, v.env.ops)))
    case _ => d
  }

  /** The library compares every time slice EQUAL to itself. */
  ghost predicate CompareReflexive(ops: Timeline.Ops) {
    forall ts :: ops.compare(ts, ts) == EQUAL
  }

  /** The drawings whose need for a redraw is settled by a redraw: all but
      the candles, a selection-dependant time grid and custom drawings; the
      series, the value grid and the selector only when their guard passes. */
  predicate Settles(d: Drawing, v: View) {
    match d.kind
    case CandlesKind => false
    case XGridKind(_, tsd) => !tsd
    case CustomKind(_, _, _) => false
    case SeriesKind(_, _) => Proceeds(d, v)
    case YGridKind(_, _) => Proceeds(d, v)
    case SelectorKind(_) => Proceeds(d, v)
    case _ => true
  }

  /** A redraw settles the drawing: asked again with the same chart state,
      a settling drawing no longer needs a redraw, while the candles (and a
      selection-dependant time grid) always do. */
  lemma RedrawSettles(d: Drawing, v: View)
    requires CompareReflexive(v.env.ops)
    ensures Settles(d, v) ==> NeedRedraw(AfterRedraw(d, v), v) == Some(false)
    ensures d.kind.CandlesKind? ==> NeedRedraw(AfterRedraw(d, v), v) == Some(true)
    ensures d.kind.XGridKind? && d.kind.timeSelDependant ==> NeedRedraw(AfterRedraw(d, v), v) == Some(true)
  {
    match d.kind
    case BarsKind(_) =>
      assert v.env.ops.compare(v.chartSel, v.chartSel) == EQUAL;
    case SeriesKind(_, _) =>
      if Proceeds(d, v) && v.selected.Some? {
        assert v.env.ops.compare(v.selected.value.ts, v.selected.value.ts) == EQUAL;
      }
    case _ =>
  }
}
