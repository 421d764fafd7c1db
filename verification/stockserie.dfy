/** The chronological OHLCV series. The source keeps a doubly linked list
    from `Tail` (earliest) to `Head` (latest); here it is the sequence of its
    items in Tail-to-Head order, so `Tail` is the first element, `Head` the
    last, `Next` the following index and `Prev` the preceding one. */
module StockSerie {
  import opened Wrappers
  import opened Timeline
  import Datarange

  /** One data point: the time slice it covers and its values. */
  datatype DataStock = DataStock(
    ts: TimeSlice,
    open: real, low: real, high: real, close: real, volume: real,
    labelText: string)

  datatype DataList = DataList(name: string, items: seq<DataStock>)

  predicate IsEmpty(dl: DataList) { |dl.items| == 0 }

  /** Counts the items met walking from Head through Prev, up to and
      including Tail. */
  method Size(dl: DataList) returns (size: nat)
    ensures size == |dl.items|
    ensures size == 0 <==> IsEmpty(dl)
  {
    size := 0;
    if |dl.items| == 0 {
      return;
    }
    var scan := |dl.items| - 1;   // the Head
    while true
      invariant 0 <= scan < |dl.items|
      invariant size == |dl.items| - 1 - scan
      decreases scan
    {
      size := size + 1;
      if scan == 0 {   // the Tail
        break;
      }
      scan := scan - 1;
    }
  }

  /** Attaches the item at the Head. */
  function Append(dl: DataList, d: DataStock): (r: DataList)
    ensures |r.items| == |dl.items| + 1
    ensures r.items[|r.items| - 1] == d
    ensures r.items[..|dl.items|] == dl.items
    ensures IsEmpty(dl) ==> r.items[0] == d
    ensures !IsEmpty(dl) ==> r.items[0] == dl.items[0]
    ensures r.name == dl.name
  {
    dl.(items := dl.items + [d])
  }

  /** Strictly increasing end instants, Tail to Head. */
  predicate SortedByTo(s: seq<DataStock>) {
    forall i, j :: 0 <= i < j < |s| ==> s[i].ts.to < s[j].ts.to
  }

  /** The backward scan of Insert: `i` items (indices below `i`) remain to visit. */
  function InsertScan(s: seq<DataStock>, d: DataStock, i: nat): (r: seq<DataStock>)
    requires i <= |s|
    ensures r == s || (|r| == |s| + 1 && multiset(r) == multiset(s) + multiset{d})
    decreases i
  {
    if i == 0 then [d] + s
    else if s[i - 1].ts.to == d.ts.to then s
    else if s[i - 1].ts.to < d.ts.to then
      assert s == s[..i] + s[i..];
      s[..i] + [d] + s[i..]
    else InsertScan(s, d, i - 1)
  }

  /** Inserts the item by a backward scan from the Head: after the first item
      ending strictly earlier, or at the Tail when none does; an item ending
      at the same instant as one met first aborts the insertion. */
  function Insert(dl: DataList, d: DataStock): (r: DataList)
    ensures IsEmpty(dl) ==> r.items == [d]
    ensures r.name == dl.name
  {
    if |dl.items| == 0 then dl.(items := [d])
    else dl.(items := InsertScan(dl.items, d, |dl.items|))
  }

  /** The backward scan passes over items ending after `d`: if every item
      from `k + 1` to below `i` does, the scan from `i` is the scan from `k + 1`. */
  lemma {:induction false} InsertScanSkips(s: seq<DataStock>, d: DataStock, i: nat, k: nat)
    requires k < i <= |s|
    requires forall j :: k < j < i ==> s[j].ts.to > d.ts.to
    ensures InsertScan(s, d, i) == InsertScan(s, d, k + 1)
    decreases i
  {
    if i > k + 1 {
      assert s[i - 1].ts.to > d.ts.to;
      assert InsertScan(s, d, i) == InsertScan(s, d, i - 1);
      InsertScanSkips(s, d, i - 1, k);
    }
  }

  /** A scan that meets no item ending at or before `d` puts `d` at the Tail. */
  lemma {:induction false} InsertScanAtTail(s: seq<DataStock>, d: DataStock, i: nat)
    requires i <= |s|
    requires forall j :: 0 <= j < i ==> s[j].ts.to > d.ts.to
    ensures InsertScan(s, d, i) == [d] + s
    decreases i
  {
    if i > 0 {
      assert s[i - 1].ts.to > d.ts.to;
      InsertScanAtTail(s, d, i - 1);
    }
  }

  /** Outcome of the backward scan over indices below `i`, stated without
      recursion: the first item met (highest index) ending no later than `d`
      decides. */
  lemma InsertScanOutcome(s: seq<DataStock>, d: DataStock, i: nat)
    requires i <= |s|
    ensures (forall j :: 0 <= j < i ==> s[j].ts.to > d.ts.to) ==> InsertScan(s, d, i) == [d] + s
    ensures forall k :: 0 <= k < i && s[k].ts.to == d.ts.to && (forall j :: k < j < i ==> s[j].ts.to > d.ts.to)
              ==> InsertScan(s, d, i) == s
    ensures forall k :: 0 <= k < i && s[k].ts.to < d.ts.to && (forall j :: k < j < i ==> s[j].ts.to > d.ts.to)
              ==> InsertScan(s, d, i) == s[..k + 1] + [d] + s[k + 1..]
  {
    if forall j :: 0 <= j < i ==> s[j].ts.to > d.ts.to {
      InsertScanAtTail(s, d, i);
    }
    forall k | 0 <= k < i && s[k].ts.to <= d.ts.to && (forall j :: k < j < i ==> s[j].ts.to > d.ts.to)
      ensures InsertScan(s, d, i) == if s[k].ts.to == d.ts.to then s else s[..k + 1] + [d] + s[k + 1..]
    {
      InsertScanSkips(s, d, i, k);
    }
  }

  /** The scan from the Head meets an item with an equal end before one
      ending earlier: the list is left unchanged. */
  lemma InsertDuplicateUnchanged(dl: DataList, d: DataStock, k: nat)
    requires k < |dl.items| && dl.items[k].ts.to == d.ts.to
    requires forall j :: k < j < |dl.items| ==> dl.items[j].ts.to > d.ts.to
    ensures Insert(dl, d) == dl
  {
    InsertScanOutcome(dl.items, d, |dl.items|);
  }

  /** Splicing an item between the items ending before it and those ending
      after it keeps a list sorted by end instants. */
  lemma SpliceSorted(s: seq<DataStock>, d: DataStock, m: nat)
    requires SortedByTo(s) && m <= |s|
    requires forall j :: 0 <= j < m ==> s[j].ts.to < d.ts.to
    requires forall j :: m <= j < |s| ==> s[j].ts.to > d.ts.to
    ensures SortedByTo(s[..m] + [d] + s[m..])
  {
    var r := s[..m] + [d] + s[m..];
    assert forall j :: 0 <= j < m ==> r[j] == s[j];
    assert r[m] == d;
    assert forall j :: m < j < |r| ==> r[j] == s[j - 1];
  }

  /** The backward scan, over a sorted list whose items above `i` all end
      after `d`, keeps the list sorted; it returns the list unchanged exactly
      when some item ends with `d`, and otherwise adds `d`. */
  lemma {:induction false} InsertScanSorted(s: seq<DataStock>, d: DataStock, i: nat)
    requires SortedByTo(s) && i <= |s|
    requires forall j :: i <= j < |s| ==> s[j].ts.to > d.ts.to
    ensures SortedByTo(InsertScan(s, d, i))
    ensures (exists k :: 0 <= k < |s| && s[k].ts.to == d.ts.to) ==> InsertScan(s, d, i) == s
    ensures (forall k :: 0 <= k < |s| ==> s[k].ts.to != d.ts.to) ==>
              |InsertScan(s, d, i)| == |s| + 1 && multiset(InsertScan(s, d, i)) == multiset(s) + multiset{d}
    decreases i
  {
    if i == 0 {
      SpliceSorted(s, d, 0);
      assert s[..0] + [d] + s[0..] == [d] + s;
    } else if s[i - 1].ts.to == d.ts.to {
    } else if s[i - 1].ts.to < d.ts.to {
      SpliceSorted(s, d, i);
    } else {
      InsertScanSorted(s, d, i - 1);
    }
  }

  /** Inserting into a list sorted by end instants keeps it sorted; it grows
      by one exactly when no item has the same end, and an item ending before
      every other lands at the Tail. */
  lemma InsertKeepsSorted(dl: DataList, d: DataStock)
    requires SortedByTo(dl.items)
    ensures SortedByTo(Insert(dl, d).items)
    ensures (exists k :: 0 <= k < |dl.items| && dl.items[k].ts.to == d.ts.to) ==> Insert(dl, d) == dl
    ensures (forall k :: 0 <= k < |dl.items| ==> dl.items[k].ts.to != d.ts.to) ==>
              |Insert(dl, d).items| == |dl.items| + 1 &&
              multiset(Insert(dl, d).items) == multiset(dl.items) + multiset{d}
    ensures (forall k :: 0 <= k < |dl.items| ==> dl.items[k].ts.to > d.ts.to) ==>
              Insert(dl, d).items == [d] + dl.items
  {
    if |dl.items| > 0 {
      InsertScanSorted(dl.items, d, |dl.items|);
      InsertScanOutcome(dl.items, d, |dl.items|);
    }
  }

  /** The item covers `t`, both bounds included. */
  predicate Covers(d: DataStock, t: int) { d.ts.from <= t <= d.ts.to }

  /** Index of the first item from index `i` on that covers `t`. */
  function FindAt(s: seq<DataStock>, t: int, i: nat): (r: Option<nat>)
    requires i <= |s|
    ensures r.Some? ==> i <= r.value < |s| && Covers(s[r.value], t)
    ensures r.Some? ==> forall j :: i <= j < r.value ==> !Covers(s[j], t)
    ensures r.None? <==> forall j :: i <= j < |s| ==> !Covers(s[j], t)
    decreases |s| - i
  {
    if i == |s| then None
    else if Covers(s[i], t) then Some(i)
    else FindAt(s, t, i + 1)
  }

  /** The first item from the Tail whose slice covers `t`, or None. */
  function GetDataAt(dl: DataList, t: int): (r: Option<DataStock>)
    ensures r.None? <==> forall j :: 0 <= j < |dl.items| ==> !Covers(dl.items[j], t)
    ensures r.Some? ==> exists k :: 0 <= k < |dl.items| && dl.items[k] == r.value && Covers(r.value, t) &&
                          (forall j :: 0 <= j < k ==> !Covers(dl.items[j], t))
  {
    match FindAt(dl.items, t, 0)
    case None => None
    case Some(k) => Some(dl.items[k])
  }

  /** Items follow each other in time without overlapping interiors. */
  predicate Chronological(s: seq<DataStock>) {
    && (forall i :: 0 <= i < |s| ==> s[i].ts.from < s[i].ts.to)
    && (forall i, j :: 0 <= i < j < |s| ==> s[i].ts.to <= s[j].ts.from)
  }

  /** In a chronological series an instant strictly inside an item finds that
      item, and an instant outside the whole span finds nothing. */
  lemma GetDataAtChronological(dl: DataList, k: nat, t: int)
    requires Chronological(dl.items) && k < |dl.items|
    requires dl.items[k].ts.from < t < dl.items[k].ts.to
    ensures GetDataAt(dl, t) == Some(dl.items[k])
  {
    var s := dl.items;
    assert forall j :: 0 <= j < k ==> s[j].ts.to <= s[k].ts.from;
    assert FindAt(s, t, 0) == Some(k);
  }

  lemma GetDataAtOutsideSpan(dl: DataList, t: int)
    requires Chronological(dl.items) && |dl.items| > 0
    requires t < dl.items[0].ts.from || t > dl.items[|dl.items| - 1].ts.to
    ensures GetDataAt(dl, t).None?
  {
    var s := dl.items;
    forall j | 0 <= j < |s|
      ensures !Covers(s[j], t)
    {
      if j > 0 { assert s[0].ts.to <= s[j].ts.from; }
      if j < |s| - 1 { assert s[j].ts.to <= s[|s| - 1].ts.from; }
    }
  }

  /** `{Tail.From, Head.To}`, or the zero slice for an empty list. */
  function TimeSliceOf(dl: DataList): (ts: TimeSlice)
    ensures IsEmpty(dl) ==> ts == ZeroSlice
    ensures !IsEmpty(dl) ==> ts.from == dl.items[0].ts.from && ts.to == dl.items[|dl.items| - 1].ts.to
  {
    if |dl.items| == 0 then ZeroSlice
    else TimeSlice(dl.items[0].ts.from, dl.items[|dl.items| - 1].ts.to)
  }

  /** In a chronological series every item lies within the list's time slice. */
  lemma TimeSliceCoversItems(dl: DataList)
    requires Chronological(dl.items)
    ensures forall j :: 0 <= j < |dl.items| ==>
      TimeSliceOf(dl).from <= dl.items[j].ts.from && dl.items[j].ts.to <= TimeSliceOf(dl).to
  {
    var s := dl.items;
    forall j | 0 <= j < |s|
      ensures TimeSliceOf(dl).from <= s[j].ts.from && s[j].ts.to <= TimeSliceOf(dl).to
    {
      if j > 0 { assert s[0].ts.to <= s[j].ts.from; }
      if j < |s| - 1 { assert s[j].ts.to <= s[|s| - 1].ts.from; }
    }
  }

  /** Which values a range fold reads: Low/High for prices, Volume for volumes. */
  datatype Field = Prices | Volumes

  function LowOf(d: DataStock, f: Field): real {
    if f == Prices then d.low else d.volume
  }

  function HighOf(d: DataStock, f: Field): real {
    if f == Prices then d.high else d.volume
  }

  /** The fold's filter. Go binds `&` tighter than `|` and both tighter than
      `>`, so it reads `(WhereIs(From) | (WhereIs(To) & TS_IN)) > 0`; a
      missing slice matches every item. */
  predicate Matches(ops: Ops, ts: Option<TimeSlice>, d: DataStock) {
    ts.None? || (ops.whereIs(ts.value, d.ts.from) | (ops.whereIs(ts.value, d.ts.to) & ops.tsIn)) != 0
  }

  /** One step of the fold: a zero `low` counts as unset. */
  function Step(acc: (real, real), d: DataStock, f: Field): (real, real) {
    var (low, high) := acc;
    (if low == 0.0 || LowOf(d, f) < low then LowOf(d, f) else low,
     if HighOf(d, f) > high then HighOf(d, f) else high)
  }

  /** The fold from the Tail over the matching items, starting at (0, 0). */
  function Fold(s: seq<DataStock>, ops: Ops, ts: Option<TimeSlice>, f: Field): (real, real)
  {
    if |s| == 0 then (0.0, 0.0)
    else
      var acc := Fold(s[..|s| - 1], ops, ts, f);
      if Matches(ops, ts, s[|s| - 1]) then Step(acc, s[|s| - 1], f) else acc
  }

  /** High is the largest of 0 and the matched highs. */
  ghost predicate HighMeaning(s: seq<DataStock>, ops: Ops, ts: Option<TimeSlice>, f: Field, high: real) {
    && high >= 0.0
    && (forall j :: 0 <= j < |s| && Matches(ops, ts, s[j]) ==> HighOf(s[j], f) <= high)
    && (high == 0.0 || exists j :: 0 <= j < |s| && Matches(ops, ts, s[j]) && HighOf(s[j], f) == high)
  }

  /** When no matched low is zero, low is the smallest matched low, or 0 when
      nothing matched. */
  ghost predicate LowMeaning(s: seq<DataStock>, ops: Ops, ts: Option<TimeSlice>, f: Field, low: real) {
    (forall j :: 0 <= j < |s| && Matches(ops, ts, s[j]) ==> LowOf(s[j], f) != 0.0) ==>
      && (forall j :: 0 <= j < |s| && Matches(ops, ts, s[j]) ==> low <= LowOf(s[j], f))
      && (low == 0.0 <==> forall j :: 0 <= j < |s| ==> !Matches(ops, ts, s[j]))
      && (low != 0.0 ==> exists j :: 0 <= j < |s| && Matches(ops, ts, s[j]) && LowOf(s[j], f) == low)
  }

  /** Item j is matched and no matched value from j on is zero. Go's loop
      treats a zero running low as unset, so a matched zero restarts the
      minimum and only the items after the last one still count. */
  ghost predicate Live(s: seq<DataStock>, ops: Ops, ts: Option<TimeSlice>, f: Field, j: int) {
    && 0 <= j < |s|
    && Matches(ops, ts, s[j])
    && forall i :: j <= i < |s| && Matches(ops, ts, s[i]) ==> LowOf(s[i], f) != 0.0
  }

  ghost predicate NonNegative(s: seq<DataStock>, ops: Ops, ts: Option<TimeSlice>, f: Field) {
    forall j :: 0 <= j < |s| && Matches(ops, ts, s[j]) ==> LowOf(s[j], f) >= 0.0
  }

  /** For non-negative values, low is the smallest matched value after the
      last matched zero, or 0 when there is none. */
  ghost predicate LowAfterZeroMeaning(s: seq<DataStock>, ops: Ops, ts: Option<TimeSlice>, f: Field, low: real) {
    NonNegative(s, ops, ts, f) ==>
      && (forall j :: Live(s, ops, ts, f, j) ==> low <= LowOf(s[j], f))
      && (low == 0.0 <==> forall j :: !Live(s, ops, ts, f, j))
      && (low != 0.0 ==> exists j :: Live(s, ops, ts, f, j) && LowOf(s[j], f) == low)
  }

  ghost predicate FoldMeaning(s: seq<DataStock>, ops: Ops, ts: Option<TimeSlice>, f: Field, low: real, high: real) {
    && HighMeaning(s, ops, ts, f, high)
    && LowMeaning(s, ops, ts, f, low)
    && LowAfterZeroMeaning(s, ops, ts, f, low)
  }

  lemma {:induction false} FoldHigh(s: seq<DataStock>, ops: Ops, ts: Option<TimeSlice>, f: Field)
    ensures HighMeaning(s, ops, ts, f, Fold(s, ops, ts, f).1)
    decreases |s|
  {
    if |s| > 0 {
      var p := s[..|s| - 1];
      FoldHigh(p, ops, ts, f);
      assert forall j :: 0 <= j < |p| ==> s[j] == p[j];
    }
  }

  lemma {:induction false} FoldLow(s: seq<DataStock>, ops: Ops, ts: Option<TimeSlice>, f: Field)
    ensures LowMeaning(s, ops, ts, f, Fold(s, ops, ts, f).0)
    decreases |s|
  {
    if |s| > 0 {
      var p := s[..|s| - 1];
      FoldLow(p, ops, ts, f);
      assert forall j :: 0 <= j < |p| ==> s[j] == p[j];
    }
  }

  /** Appending an item that is unmatched or non-zero keeps which earlier
      items are live. */
  lemma LiveSnoc(s: seq<DataStock>, ops: Ops, ts: Option<TimeSlice>, f: Field, j: int)
    requires |s| > 0 && 0 <= j < |s| - 1
    requires !Matches(ops, ts, s[|s| - 1]) || LowOf(s[|s| - 1], f) != 0.0
    ensures Live(s, ops, ts, f, j) <==> Live(s[..|s| - 1], ops, ts, f, j)
  {
    var p := s[..|s| - 1];
    assert forall i :: 0 <= i < |p| ==> s[i] == p[i];
  }

  /** An unmatched item leaves the low and its meaning as they were. */
  lemma LowAfterZeroSkip(s: seq<DataStock>, ops: Ops, ts: Option<TimeSlice>, f: Field, low: real)
    requires |s| > 0 && !Matches(ops, ts, s[|s| - 1])
    requires NonNegative(s[..|s| - 1], ops, ts, f)
    requires LowAfterZeroMeaning(s[..|s| - 1], ops, ts, f, low)
    ensures LowAfterZeroMeaning(s, ops, ts, f, low)
  {
    var p := s[..|s| - 1];
    forall j | 0 <= j < |p|
      ensures Live(s, ops, ts, f, j) <==> Live(p, ops, ts, f, j)
    {
      LiveSnoc(s, ops, ts, f, j);
    }
    assert !Live(s, ops, ts, f, |p|);
    assert forall j :: Live(s, ops, ts, f, j) ==> s[j] == p[j];
  }

  /** A matched zero leaves no live item, and the low is 0. */
  lemma LowAfterZeroReset(s: seq<DataStock>, ops: Ops, ts: Option<TimeSlice>, f: Field)
    requires |s| > 0 && Matches(ops, ts, s[|s| - 1]) && LowOf(s[|s| - 1], f) == 0.0
    ensures LowAfterZeroMeaning(s, ops, ts, f, 0.0)
  {
    forall j
      ensures !Live(s, ops, ts, f, j)
    {
      if 0 <= j < |s| {
        assert j <= |s| - 1;
      }
    }
  }

  /** A matched positive value becomes the low when the low was unset or
      larger, and the new item is live. */
  lemma LowAfterZeroPositive(s: seq<DataStock>, ops: Ops, ts: Option<TimeSlice>, f: Field, lowp: real, low: real)
    requires |s| > 0 && Matches(ops, ts, s[|s| - 1]) && LowOf(s[|s| - 1], f) > 0.0
    requires NonNegative(s[..|s| - 1], ops, ts, f)
    requires LowAfterZeroMeaning(s[..|s| - 1], ops, ts, f, lowp)
    requires low == if lowp == 0.0 || LowOf(s[|s| - 1], f) < lowp then LowOf(s[|s| - 1], f) else lowp
    ensures LowAfterZeroMeaning(s, ops, ts, f, low)
  {
    var p := s[..|s| - 1];
    var n := |p|;
    forall j | 0 <= j < n
      ensures Live(s, ops, ts, f, j) <==> Live(p, ops, ts, f, j)
    {
      LiveSnoc(s, ops, ts, f, j);
    }
    assert forall j :: 0 <= j < n ==> s[j] == p[j];
    assert Live(s, ops, ts, f, n);
    if lowp != 0.0 {
      var k :| Live(p, ops, ts, f, k) && LowOf(p[k], f) == lowp;
      assert Live(s, ops, ts, f, k);
    }
  }

  lemma {:induction false} FoldLowAfterZero(s: seq<DataStock>, ops: Ops, ts: Option<TimeSlice>, f: Field)
    ensures LowAfterZeroMeaning(s, ops, ts, f, Fold(s, ops, ts, f).0)
    decreases |s|
  {
    if |s| > 0 && NonNegative(s, ops, ts, f) {
      var p := s[..|s| - 1];
      var d := s[|s| - 1];
      assert NonNegative(p, ops, ts, f) by {
        assert forall j :: 0 <= j < |p| ==> s[j] == p[j];
      }
      FoldLowAfterZero(p, ops, ts, f);
      var lowp := Fold(p, ops, ts, f).0;
      if !Matches(ops, ts, d) {
        LowAfterZeroSkip(s, ops, ts, f, lowp);
      } else if LowOf(d, f) == 0.0 {
        assert Fold(s, ops, ts, f).0 == 0.0;
        LowAfterZeroReset(s, ops, ts, f);
      } else {
        LowAfterZeroPositive(s, ops, ts, f, lowp, Fold(s, ops, ts, f).0);
      }
    }
  }

  /** An item of volume x, every other field zero. */
  function VolumeItem(x: real): DataStock {
    DataStock(TimeSlice(0, 1), 0.0, 0.0, 0.0, 0.0, x, "")
  }

  /** A zero volume between 10 and 20 restarts the minimum: the low is 20. */
  lemma ZeroResetExample(ops: Ops)
    ensures Fold([VolumeItem(10.0), VolumeItem(0.0), VolumeItem(20.0)], ops, None, Volumes) == (20.0, 20.0)
  {
    var s := [VolumeItem(10.0), VolumeItem(0.0), VolumeItem(20.0)];
    assert s[..2] == [VolumeItem(10.0), VolumeItem(0.0)];
    assert s[..2][..1] == [VolumeItem(10.0)];
    assert Fold([VolumeItem(10.0)], ops, None, Volumes) == (10.0, 10.0) by {
      assert [VolumeItem(10.0)][..0] == [];
    }
  }

  lemma FoldSpec(s: seq<DataStock>, ops: Ops, ts: Option<TimeSlice>, f: Field)
    ensures FoldMeaning(s, ops, ts, f, Fold(s, ops, ts, f).0, Fold(s, ops, ts, f).1)
  {
    FoldHigh(s, ops, ts, f);
    FoldLow(s, ops, ts, f);
    FoldLowAfterZero(s, ops, ts, f);
  }

  /** The Go loop of DataRange / VolumeDataRange, before quantisation. */
  method ScanRange(dl: DataList, ops: Ops, ts: Option<TimeSlice>, f: Field) returns (low: real, high: real)
    ensures (low, high) == Fold(dl.items, ops, ts, f)
    ensures FoldMeaning(dl.items, ops, ts, f, low, high)
  {
    low, high := 0.0, 0.0;
    var i := 0;
    while i < |dl.items|
      invariant 0 <= i <= |dl.items|
      invariant (low, high) == Fold(dl.items[..i], ops, ts, f)
    {
      var item := dl.items[i];
      assert dl.items[..i + 1][..i] == dl.items[..i];
      if Matches(ops, ts, item) {
        if low == 0.0 || LowOf(item, f) < low {
          low := LowOf(item, f);
        }
        if HighOf(item, f) > high {
          high := HighOf(item, f);
        }
      }
      i := i + 1;
    }
    assert dl.items[..i] == dl.items;
    FoldSpec(dl.items, ops, ts, f);
  }

  /** DataRange: the quantising constructor applied to the price fold, whose
      High is the largest matched high (or 0) and whose Low is the smallest
      matched low after the last matched zero (0 when there is none). */
  function DataRange(dl: DataList, ops: Ops, dops: Datarange.Ops, ts: Option<TimeSlice>, maxSteps: nat): (r: Datarange.DataRange)
    ensures var (low, high) := Fold(dl.items, ops, ts, Prices);
      && FoldMeaning(dl.items, ops, ts, Prices, low, high)
      && r == dops.make(low, high, -(maxSteps as real))
  {
    var (low, high) := Fold(dl.items, ops, ts, Prices);
    FoldSpec(dl.items, ops, ts, Prices);
    dops.make(low, high, -(maxSteps as real))
  }

  /** VolumeDataRange: the same over the volumes: the largest matched volume,
      and the smallest matched volume after the last matched zero volume. */
  function VolumeDataRange(dl: DataList, ops: Ops, dops: Datarange.Ops, ts: Option<TimeSlice>, maxSteps: nat): (r: Datarange.DataRange)
    ensures var (low, high) := Fold(dl.items, ops, ts, Volumes);
      && FoldMeaning(dl.items, ops, ts, Volumes, low, high)
      && r == dops.make(low, high, -(maxSteps as real))
  {
    var (low, high) := Fold(dl.items, ops, ts, Volumes);
    FoldSpec(dl.items, ops, ts, Volumes);
    dops.make(low, high, -(maxSteps as real))
  }
}
