/** A layer: one canvas with a clip area, a layout slot in the chart, a
    reference to the chart range its drawings are scaled on, and a stack of
    drawings painted in order. Canvas effects are recorded as a trace. */
module Layers {
  import opened Wrappers
  import opened Num
  import opened Geo2d
  import opened Timeline
  import opened StockSerie
  import opened EventHandler
  import opened DrawingPrimitives
  import opened Drawings

  datatype Layout = Full | Graph | YScale | NavBar

  /** Which chart range the layer's axis range points to, if any. */
  datatype XRef = NoRange | TimeRange | Selection

  datatype Layer = Layer(name: string, clip: Rect, layout: Layout, xRef: XRef, drawings: seq<Drawing>)

  /** What a redraw or a pointer event does outside the model's state. */
  datatype Effect =
    | Cleared(layer: string)                     // the layer's clip area is cleared
    | Painted(layer: string, index: nat)         // drawing `index` runs its OnRedraw
    | Asked(layer: string, index: nat)           // drawing `index`'s NeedRedraw is evaluated
    | LocalRedraw(layer: string, index: nat)     // the selector clears and repaints its layer
    | NotifiedTimeSlice(pair: string, ts: TimeSlice)
    | NotifiedData(pair: string, data: Option<DataStock>)
    | Dropped                                    // a chart redraw refused while one is running

  /** Only canvas effects: no notification. */
  predicate Quiet(trace: seq<Effect>) {
    forall k :: 0 <= k < |trace| ==> !trace[k].NotifiedTimeSlice? && !trace[k].NotifiedData?
  }

  predicate NotifiesTimeSlice(trace: seq<Effect>) {
    exists k :: 0 <= k < |trace| && trace[k].NotifiedTimeSlice?
  }

  predicate NotifiesData(trace: seq<Effect>) {
    exists k :: 0 <= k < |trace| && trace[k].NotifiedData?
  }

  /** A concatenated trace notifies exactly what one of its parts does. */
  lemma QuietConcat(a: seq<Effect>, b: seq<Effect>)
    requires Quiet(a) && Quiet(b)
    ensures Quiet(a + b)
  {
    forall k | 0 <= k < |a + b|
      ensures !(a + b)[k].NotifiedTimeSlice? && !(a + b)[k].NotifiedData?
    {
      if k >= |a| {
        assert (a + b)[k] == b[k - |a|];
      }
    }
  }

  lemma NotesOfConcat(a: seq<Effect>, b: seq<Effect>)
    ensures NotifiesTimeSlice(a + b) <==> NotifiesTimeSlice(a) || NotifiesTimeSlice(b)
    ensures NotifiesData(a + b) <==> NotifiesData(a) || NotifiesData(b)
  {
    if NotifiesTimeSlice(a + b) {
      var k :| 0 <= k < |a + b| && (a + b)[k].NotifiedTimeSlice?;
      if k >= |a| {
        assert (a + b)[k] == b[k - |a|];
      }
    }
    if NotifiesTimeSlice(b) {
      var k :| 0 <= k < |b| && b[k].NotifiedTimeSlice?;
      assert (a + b)[|a| + k] == b[k];
    }
    if NotifiesTimeSlice(a) {
      var k :| 0 <= k < |a| && a[k].NotifiedTimeSlice?;
      assert (a + b)[k] == a[k];
    }
    if NotifiesData(a + b) {
      var k :| 0 <= k < |a + b| && (a + b)[k].NotifiedData?;
      if k >= |a| {
        assert (a + b)[k] == b[k - |a|];
      }
    }
    if NotifiesData(b) {
      var k :| 0 <= k < |b| && b[k].NotifiedData?;
      assert (a + b)[|a| + k] == b[k];
    }
    if NotifiesData(a) {
      var k :| 0 <= k < |a| && a[k].NotifiedData?;
      assert (a + b)[k] == a[k];
    }
  }

  /** Two stacks of the same drawings, each bound to the same series. */
  predicate SameSeries(ds1: seq<Drawing>, ds2: seq<Drawing>) {
    |ds1| == |ds2| && forall i :: 0 <= i < |ds1| ==> ds1[i].series == ds2[i].series
  }

  /** AddDrawing: pushes the drawing on top of the stack with this layer as
      its parent and the given background colour. */
  function AddDrawing(l: Layer, d: Drawing, bgColor: int): (r: Layer)
    ensures r == l.(drawings := r.drawings)
    ensures |r.drawings| == |l.drawings| + 1 && r.drawings[..|l.drawings|] == l.drawings
    ensures r.drawings[|l.drawings|] == d.(parent := Some(l.name), bgColor := bgColor)
  {
    l.(drawings := l.drawings + [d.(parent := Some(l.name), bgColor := bgColor)])
  }

  /** The handler sets of the stack, in stack order. */
  function HandlerStack(ds: seq<Drawing>): (hs: seq<set<Event>>)
    ensures |hs| == |ds| && forall i :: 0 <= i < |ds| ==> hs[i] == HandlersOf(ds[i])
  {
    seq(|ds|, i requires 0 <= i < |ds| => HandlersOf(ds[i]))
  }

  function Handled(l: Layer): bv16 {
    HandledEvents(HandlerStack(l.drawings))
  }

  /** A layer installs a listener for `ev` exactly when one of its drawings
      handles it. */
  lemma InstalledIffHandled(l: Layer, ev: Event)
    ensures Has(Handled(l), ev) <==> exists i :: 0 <= i < |l.drawings| && ev in HandlersOf(l.drawings[i])
  {
    var hs := HandlerStack(l.drawings);
    if Has(Handled(l), ev) {
      var i :| 0 <= i < |hs| && ev in hs[i];
      assert ev in HandlersOf(l.drawings[i]);
    }
    if exists i :: 0 <= i < |l.drawings| && ev in HandlersOf(l.drawings[i]) {
      var i :| 0 <= i < |l.drawings| && ev in HandlersOf(l.drawings[i]);
      assert ev in hs[i];
    }
  }

  /** The painting loop of Redraw over a stack: each drawing with an
      OnRedraw runs it, in stack order. */
  function Paint(ds: seq<Drawing>, v: View, name: string): (r: (seq<Drawing>, seq<Effect>))
    ensures |r.0| == |ds|
    ensures forall i :: 0 <= i < |ds| ==> r.0[i] == (if HasOnRedraw(ds[i]) then AfterRedraw(ds[i], v) else ds[i])
    ensures forall k :: 0 <= k < |r.1| ==>
      r.1[k].Painted? && r.1[k].layer == name && r.1[k].index < |ds| && HasOnRedraw(ds[r.1[k].index])
    ensures forall k, k' :: 0 <= k < k' < |r.1| ==> r.1[k].index < r.1[k'].index
    ensures forall i :: 0 <= i < |ds| && HasOnRedraw(ds[i]) ==> Painted(name, i) in r.1
    decreases |ds|
  {
    if |ds| == 0 then ([], [])
    else
      var n := |ds| - 1;
      var front := Paint(ds[..n], v, name);
      assert forall i :: 0 <= i < n ==> ds[..n][i] == ds[i];
      if HasOnRedraw(ds[n]) then (front.0 + [AfterRedraw(ds[n], v)], front.1 + [Painted(name, n)])
      else (front.0 + [ds[n]], front.1)
  }

  /** Redraw: clears the layer, then paints its stack. */
  function Redraw(l: Layer, v: View): (r: (Layer, seq<Effect>))
    ensures r.0 == l.(drawings := r.0.drawings) && SameSeries(l.drawings, r.0.drawings)
    ensures |r.1| >= 1 && r.1[0] == Cleared(l.name)
    ensures forall k :: 1 <= k < |r.1| ==> r.1[k].Painted? && r.1[k].layer == l.name
    ensures forall i :: 0 <= i < |l.drawings| ==> (Painted(l.name, i) in r.1 <==> HasOnRedraw(l.drawings[i]))
    ensures Quiet(r.1)
  {
    var p := Paint(l.drawings, v, l.name);
    (l.(drawings := p.0), [Cleared(l.name)] + p.1)
  }

  /** The first drawing from index i on whose NeedRedraw answers true. */
  function FirstNeed(ds: seq<Drawing>, v: View, i: nat): (k: Option<nat>)
    requires i <= |ds|
    ensures k.Some? ==> i <= k.value < |ds| && NeedRedraw(ds[k.value], v) == Some(true)
    ensures forall j :: i <= j < |ds| && (k.None? || j < k.value) ==> NeedRedraw(ds[j], v) != Some(true)
    decreases |ds| - i
  {
    if i == |ds| then None
    else if NeedRedraw(ds[i], v) == Some(true) then Some(i)
    else FirstNeed(ds, v, i + 1)
  }

  /** The predicates evaluated among the first n drawings: those that exist. */
  function Asks(ds: seq<Drawing>, v: View, name: string, n: nat): (a: seq<Effect>)
    requires n <= |ds|
    ensures forall k :: 0 <= k < |a| ==> a[k].Asked? && a[k].layer == name && a[k].index < n
    ensures forall j :: 0 <= j < n ==> (Asked(name, j) in a <==> NeedRedraw(ds[j], v).Some?)
  {
    if n == 0 then []
    else Asks(ds, v, name, n - 1) + (if NeedRedraw(ds[n - 1], v).Some? then [Asked(name, n - 1)] else [])
  }

  /** RedrawOnlyNeeds: evaluates the predicates in stack order up to the
      first true one and then redraws the whole layer once. */
  function RedrawOnlyNeeds(l: Layer, v: View): (r: (Layer, seq<Effect>))
    ensures Quiet(r.1)
    ensures r.0 == l.(drawings := r.0.drawings) && SameSeries(l.drawings, r.0.drawings)
    ensures (Cleared(l.name) in r.1) <==> exists j :: 0 <= j < |l.drawings| && NeedRedraw(l.drawings[j], v) == Some(true)
    ensures Cleared(l.name) !in r.1 ==> r.0 == l
    ensures Cleared(l.name) in r.1 ==> r.0 == Redraw(l, v).0
  {
    var k := FirstNeed(l.drawings, v, 0);
    if k.None? then
      var a := Asks(l.drawings, v, l.name, |l.drawings|);
      assert Cleared(l.name) !in a;
      (l, a)
    else
      var a := Asks(l.drawings, v, l.name, k.value + 1);
      var rd := Redraw(l, v);
      assert Cleared(l.name) !in a;
      assert (a + rd.1)[|a|] == Cleared(l.name);
      (rd.0, a + rd.1)
  }

  /** The index after the first true NeedRedraw, or the stack size. */
  function AskedUpTo(ds: seq<Drawing>, v: View): (n: nat)
    ensures n <= |ds|
  {
    var k := FirstNeed(ds, v, 0);
    if k.Some? then k.value + 1 else |ds|
  }

  /** The trace of RedrawOnlyNeeds holds the same Asked entries as the asks
      up to the first true predicate. */
  lemma OnlyNeedsAskedAreAsks(l: Layer, v: View, j: nat)
    ensures Asked(l.name, j) in RedrawOnlyNeeds(l, v).1 <==> Asked(l.name, j) in Asks(l.drawings, v, l.name, AskedUpTo(l.drawings, v))
  {
    var k := FirstNeed(l.drawings, v, 0);
    if k.Some? {
      var a := Asks(l.drawings, v, l.name, k.value + 1);
      var rd := Redraw(l, v);
      assert RedrawOnlyNeeds(l, v).1 == a + rd.1;
      assert Asked(l.name, j) !in rd.1;
    }
  }

  /** RedrawOnlyNeeds evaluates exactly the existing predicates up to and
      including the first that answers true, and none after it. */
  lemma OnlyNeedsAsksUpToFirst(l: Layer, v: View)
    ensures var r := RedrawOnlyNeeds(l, v);
      var k := FirstNeed(l.drawings, v, 0);
      var last := if k.Some? then k.value + 1 else |l.drawings|;
      && (forall j :: 0 <= j < last ==> (Asked(l.name, j) in r.1 <==> NeedRedraw(l.drawings[j], v).Some?))
      && (forall j :: last <= j < |l.drawings| ==> Asked(l.name, j) !in r.1)
  {
    var last := AskedUpTo(l.drawings, v);
    var a := Asks(l.drawings, v, l.name, last);
    forall j | 0 <= j < |l.drawings|
      ensures Asked(l.name, j) in RedrawOnlyNeeds(l, v).1 <==> Asked(l.name, j) in a
    {
      OnlyNeedsAskedAreAsks(l, v, j);
    }
  }

  /** RedrawOnlyNeeds clears, and so redraws, at most once. */
  lemma OnlyNeedsRedrawsAtMostOnce(l: Layer, v: View)
    ensures var r := RedrawOnlyNeeds(l, v);
      forall k, k' :: 0 <= k < |r.1| && 0 <= k' < |r.1| && r.1[k].Cleared? && r.1[k'].Cleared? ==> k == k'
  {
    var r := RedrawOnlyNeeds(l, v);
    var k := FirstNeed(l.drawings, v, 0);
    if k.Some? {
      var a := Asks(l.drawings, v, l.name, k.value + 1);
      var rd := Redraw(l, v);
      assert r.1 == a + rd.1;
      assert forall j :: 0 <= j < |a| ==> !a[j].Cleared?;
      assert forall j :: 0 < j < |rd.1| ==> !rd.1[j].Cleared?;
    }
  }

  /** ResetSubSeries: points the drawing at another series and, on request,
      redraws its layer. */
  function ResetSubSeries(l: Layer, i: nat, series: SeriesRef, redrawNow: bool, v: View): (r: (Layer, seq<Effect>))
    requires i < |l.drawings|
    ensures |r.0.drawings| == |l.drawings| && r.0.drawings[i].series == series
    ensures !redrawNow ==> r.1 == [] && r.0.drawings == l.drawings[i := l.drawings[i].(series := series)]
    ensures redrawNow ==> |r.1| >= 1 && r.1[0] == Cleared(l.name)
  {
    var l1 := l.(drawings := l.drawings[i := l.drawings[i].(series := series)]);
    if redrawNow then
      var rd := Redraw(l1, v);
      assert rd.0.drawings[i] == (if HasOnRedraw(l1.drawings[i]) then AfterRedraw(l1.drawings[i], v) else l1.drawings[i]) by {
        var p := Paint(l1.drawings, v, l1.name);
        assert rd.0.drawings == p.0;
      }
      rd
    else (l1, [])
  }

  /** The size of the drawing buffer along one axis: the CSS size scaled by
      the device pixel ratio, made non-negative and truncated. */
  function BufferSize(size: int, dpr: real): (n: int)
    ensures n >= 0
    ensures dpr >= 0.0 && size >= 0 ==> n == Trunc(size as real * dpr)
  {
    var d := size as real * dpr;
    Trunc(if d < 0.0 then -d else d)
  }

  /** Resize: the clip area takes the scaled buffer size with its X origin
      set to 0 (twice) and its Y origin untouched; the layer is redrawn. */
  function Resize(l: Layer, newArea: Rect, dpr: real, v: View): (r: (Layer, seq<Effect>))
    ensures r.0.clip.o == Point(0, l.clip.o.y)
    ensures r.0.clip.width >= 0 && r.0.clip.height >= 0
    ensures r.0.clip.width == BufferSize(newArea.width, dpr) && r.0.clip.height == BufferSize(newArea.height, dpr)
    ensures r == Redraw(l.(clip := r.0.clip), v.(clip := r.0.clip))
  {
    var clip := Rect(Point(0, l.clip.o.y), BufferSize(newArea.width, dpr), BufferSize(newArea.height, dpr));
    var l1 := l.(clip := clip);
    Redraw(l1, v.(clip := clip))
  }
}
