/** Time slices, the `{From, To}` intervals of the chart's time axis.
    Instants are integer nanoseconds counted from Go's zero time, so the
    zero instant (`time.Time.IsZero`) is the integer 0 and a bound equal to
    0 is an unbounded ("infinite") end. All these operations belong to an
    external library. `Bound`, `MoveFromAt` and `MoveToAt` are defined here
    as the chart's own code and comments use them. The duration, the
    zero/infinite tests, `ExtendTo` and `BoundIn` are defined here too, but
    their meaning is an assumption about the library. The rest are carried,
    uninterpreted, by `Ops`. */
module Timeline {

  /** An interval of instants. */
  datatype TimeSlice = TimeSlice(from: int, to: int)

  /** The Go zero value of a time slice. */
  const ZeroSlice := TimeSlice(0, 0)

  /** Both bounds are the zero instant. */
  predicate IsZero(ts: TimeSlice) { ts.from == 0 && ts.to == 0 }

  /** At least one bound is the zero instant, i.e. unbounded. */
  predicate IsInfinite(ts: TimeSlice) { ts.from == 0 || ts.to == 0 }

  /** A duration together with its finiteness flag. */
  datatype Duration = Duration(d: int, isFinite: bool)

  function DurationOf(ts: TimeSlice): (dur: Duration)
    ensures dur.isFinite <==> !IsInfinite(ts)
    ensures ts.from + dur.d == ts.to
  {
    Duration(ts.to - ts.from, !IsInfinite(ts))
  }

  /** `t` clamped into `[from, to]`. */
  function Bound(ts: TimeSlice, t: int): (b: int)
    ensures ts.from <= ts.to ==> ts.from <= b <= ts.to
    ensures ts.from <= t <= ts.to ==> b == t
    ensures t < ts.from ==> b == ts.from
  {
    if t < ts.from then ts.from else if t > ts.to then ts.to else t
  }

  /** Relocates the From bound and keeps To. */
  function MoveFromAt(ts: TimeSlice, t: int): (r: TimeSlice)
    ensures r.from == t && r.to == ts.to
  {
    ts.(from := t)
  }

  /** Relocates the To bound and keeps From. */
  function MoveToAt(ts: TimeSlice, t: int): (r: TimeSlice)
    ensures r.to == t && r.from == ts.from
  {
    ts.(to := t)
  }

  /** Moves the To bound by a (possibly negative) duration. */
  function ExtendTo(ts: TimeSlice, d: int): (r: TimeSlice)
    ensures r.from == ts.from && r.to - ts.to == d
  {
    ts.(to := ts.to + d)
  }

  /** `ts` with both bounds clamped into `range`. */
  function BoundIn(range: TimeSlice, ts: TimeSlice): (r: TimeSlice)
    ensures range.from <= range.to ==> range.from <= r.from <= range.to && range.from <= r.to <= range.to
    ensures range.from <= ts.from <= range.to && range.from <= ts.to <= range.to ==> r == ts
  {
    TimeSlice(Bound(range, ts.from), Bound(range, ts.to))
  }

  /** The result of the library's chronological comparison. */
  datatype Cmp = EQUAL | DIFFERENT | OtherCmp(code: int)

  /** Operations of the external timeline library, left uninterpreted. */
  datatype Ops = Ops(
    whereIs: (TimeSlice, int) -> bv16,           // position flags of an instant
    tsIn: bv16,                                   // the "inside" flag
    compare: (TimeSlice, TimeSlice) -> Cmp,
    whatTime: (TimeSlice, real) -> int,           // instant at a progress ratio
    progress: (TimeSlice, int) -> real,           // progress ratio of an instant
    extendFrom: (TimeSlice, int) -> TimeSlice,
    shiftIn: (TimeSlice, int, TimeSlice) -> TimeSlice,
    adjust: (int, real) -> int,                   // a duration scaled by a factor
    isOverlapping: (TimeSlice, TimeSlice) -> bool,
    middle: TimeSlice -> int,
    scanMask: (TimeSlice, nat) -> int,
    maskShortest: int,
    scan: (TimeSlice, int) -> seq<int>            // the non-zero instants a scan visits
  )

  /** `WhereIs(t) & TS_IN > 0`: the library places `t` inside `ts`. */
  predicate InSlice(ops: Ops, ts: TimeSlice, t: int) {
    ops.whereIs(ts, t) & ops.tsIn != 0
  }

  /** The assumption, used only where stated, that "inside" means within the bounds. */
  ghost predicate InsideMeansWithin(ops: Ops) {
    forall ts, t :: InSlice(ops, ts, t) ==> ts.from <= t <= ts.to
  }
}
