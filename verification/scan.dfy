/** The walk every drawing makes over its series, from the Tail towards the
    Head: an item is either skipped (`continue`), ends the walk (`break`), or
    is drawn. The three drawings families use three different rules. */
module ItemScan {
  import opened Timeline
  import opened StockSerie

  /** Candles and bars share one rule, the series line has its own, and the
      vertical lines never stop because their series need not be sorted. */
  datatype Rule = CandleRule | SeriesRule | VLineRule

  predicate Skip(rule: Rule, range: TimeSlice, d: DataStock) {
    match rule
    case CandleRule =>
      d.ts.to < range.from || IsInfinite(d.ts) || DurationOf(d.ts).d == 0
    case SeriesRule =>
      d.ts.from < range.from
    case VLineRule =>
      IsInfinite(d.ts) || DurationOf(d.ts).d == 0 || d.ts.to < range.from || d.ts.from > range.to
  }

  /** Tested only on items that are not skipped. */
  predicate Stop(rule: Rule, range: TimeSlice, d: DataStock) {
    match rule
    case CandleRule => d.ts.from > range.to
    case SeriesRule => d.ts.to > range.to
    case VLineRule => false
  }

  /** The items a walk draws, in Tail-to-Head order. */
  function Visited(rule: Rule, range: TimeSlice, items: seq<DataStock>): (v: seq<DataStock>)
    ensures |v| <= |items|
    ensures forall k :: 0 <= k < |v| ==> v[k] in items && !Skip(rule, range, v[k]) && !Stop(rule, range, v[k])
    decreases |items|
  {
    if |items| == 0 then []
    else if Skip(rule, range, items[0]) then Visited(rule, range, items[1..])
    else if Stop(rule, range, items[0]) then []
    else [items[0]] + Visited(rule, range, items[1..])
  }

  /** The items a rule does not skip, ignoring where the walk stops. */
  function Kept(rule: Rule, range: TimeSlice, items: seq<DataStock>): (v: seq<DataStock>)
    ensures |v| <= |items|
    decreases |items|
  {
    if |items| == 0 then []
    else (if Skip(rule, range, items[0]) then [] else [items[0]]) + Kept(rule, range, items[1..])
  }

  /** The index of the item that ends the walk, or the length when none does. */
  function FirstStop(rule: Rule, range: TimeSlice, items: seq<DataStock>): (k: nat)
    ensures k <= |items|
    ensures forall j :: 0 <= j < k ==> Skip(rule, range, items[j]) || !Stop(rule, range, items[j])
    ensures k < |items| ==> !Skip(rule, range, items[k]) && Stop(rule, range, items[k])
    decreases |items|
  {
    if |items| == 0 then 0
    else if !Skip(rule, range, items[0]) && Stop(rule, range, items[0]) then 0
    else 1 + FirstStop(rule, range, items[1..])
  }

  /** The walk draws exactly the unskipped items before the first stopping
      item. */
  lemma {:induction false} VisitedIsKeptPrefix(rule: Rule, range: TimeSlice, items: seq<DataStock>)
    ensures Visited(rule, range, items) == Kept(rule, range, items[..FirstStop(rule, range, items)])
    decreases |items|
  {
    if |items| > 0 {
      VisitedIsKeptPrefix(rule, range, items[1..]);
      var k := FirstStop(rule, range, items);
      if !(!Skip(rule, range, items[0]) && Stop(rule, range, items[0])) {
        assert items[..k][1..] == items[1..][..k - 1];
      }
    }
  }

  /** A rule that never stops draws every unskipped item. */
  lemma VLinesNeverStop(range: TimeSlice, items: seq<DataStock>)
    ensures Visited(VLineRule, range, items) == Kept(VLineRule, range, items)
  {
    VisitedIsKeptPrefix(VLineRule, range, items);
    assert items[..|items|] == items;
  }

  /** Every candle or bar drawn has a finite, positive duration and meets the
      range; every point of the series line lies within the range. */
  lemma VisitedMeetRange(range: TimeSlice, items: seq<DataStock>, k: nat)
    ensures k < |Visited(CandleRule, range, items)| ==>
      var d := Visited(CandleRule, range, items)[k];
      !IsInfinite(d.ts) && d.ts.from != d.ts.to && range.from <= d.ts.to && d.ts.from <= range.to
    ensures k < |Visited(SeriesRule, range, items)| ==>
      var d := Visited(SeriesRule, range, items)[k];
      range.from <= d.ts.from && d.ts.to <= range.to
  {
  }
}
