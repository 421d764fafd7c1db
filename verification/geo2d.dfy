/** Integer pixel geometry of the chart: points, rectangles and the clipping
    helpers every drawing relies on. Sizes may be negative while a rectangle
    is being built; FlipPositive normalises them. */
module Geo2d {
  import opened Wrappers
  import opened Num

  datatype Point = Point(x: int, y: int)

  const Origin := Point(0, 0)

  /** A rectangle: origin `o` plus a width and a height, both possibly negative. */
  datatype Rect = Rect(o: Point, width: int, height: int)

  /** The far corner of a rectangle. */
  function End(r: Rect): (e: Point)
    ensures e.x - r.o.x == r.width && e.y - r.o.y == r.height
  {
    Point(r.o.x + r.width, r.o.y + r.height)
  }

  /** Inclusive containment on all four edges. */
  predicate IsIn(pt: Point, r: Rect) {
    && r.o.x <= pt.x <= r.o.x + r.width
    && r.o.y <= pt.y <= r.o.y + r.height
  }

  /** Equality of two possibly missing rectangles, field by field. */
  predicate Equal(r1: Option<Rect>, r2: Option<Rect>) {
    if r1.None? && r2.None? then true
    else if r1.None? || r2.None? then false
    else
      && r1.value.o.x == r2.value.o.x && r1.value.o.y == r2.value.o.y
      && r1.value.width == r2.value.width && r1.value.height == r2.value.height
  }

  /** Equal is exactly value equality of the optional rectangles. */
  lemma EqualIsIdentity(r1: Option<Rect>, r2: Option<Rect>)
    ensures Equal(r1, r2) <==> r1 == r2
  {
  }

  /** The set of integer coordinates an origin and a signed size span. */
  predicate InSpan(v: int, o: int, size: int) {
    if size >= 0 then o <= v <= o + size else o + size <= v <= o
  }

  /** Makes both sizes positive: a zero size becomes 1, a negative size is
      flipped by moving the origin to the other end. */
  function FlipPositive(r: Rect): (f: Rect)
    ensures f.width >= 1 && f.height >= 1
    ensures r.width != 0 ==> forall v :: InSpan(v, f.o.x, f.width) <==> InSpan(v, r.o.x, r.width)
    ensures r.height != 0 ==> forall v :: InSpan(v, f.o.y, f.height) <==> InSpan(v, r.o.y, r.height)
    ensures r.width == 0 ==> f.o.x == r.o.x && f.width == 1
    ensures r.height == 0 ==> f.o.y == r.o.y && f.height == 1
    ensures r.width > 0 ==> f.o.x == r.o.x && f.width == r.width
    ensures r.height > 0 ==> f.o.y == r.o.y && f.height == r.height
    ensures r.width < 0 ==> f.o.x == r.o.x + r.width && f.width == -r.width
    ensures r.height < 0 ==> f.o.y == r.o.y + r.height && f.height == -r.height
  {
    var oy := if r.height < 0 then r.o.y + r.height else r.o.y;
    var h := if r.height == 0 then 1 else if r.height < 0 then -r.height else r.height;
    var ox := if r.width < 0 then r.o.x + r.width else r.o.x;
    var w := if r.width == 0 then 1 else if r.width < 0 then -r.width else r.width;
    Rect(Point(ox, oy), w, h)
  }

  /** Position of `v` along an axis of origin `o` and size `size`, clamped into [0,1]. */
  function AxisRate(v: int, o: int, size: int): (rate: real)
    ensures size == 0 ==> rate == 0.0
    ensures 0.0 <= rate <= 1.0
    ensures size > 0 && o <= v <= o + size ==> rate * size as real == (v - o) as real
    ensures size > 0 && v <= o ==> rate == 0.0
    ensures size > 0 && v >= o + size ==> rate == 1.0
  {
    if size == 0 then 0.0
    else
      var rate := (v - o) as real / size as real;
      assert size > 0 && v >= o + size ==> rate >= 1.0 by {
        if size > 0 && v >= o + size {
          DivAtLeastOne((v - o) as real, size as real);
        }
      }
      if rate < 0.0 then 0.0
      else if rate > 1.0 then 1.0
      else rate
  }

  /** Where x lies across the rectangle, as a ratio clamped into [0,1]. */
  function XRate(r: Rect, x: int): (rate: real)
    ensures r.width == 0 ==> rate == 0.0
    ensures 0.0 <= rate <= 1.0
    ensures r.width > 0 && r.o.x <= x <= End(r).x ==> rate * r.width as real == (x - r.o.x) as real
    ensures r.width > 0 && x <= r.o.x ==> rate == 0.0
    ensures r.width > 0 && x >= End(r).x ==> rate == 1.0
  {
    AxisRate(x, r.o.x, r.width)
  }

  /** Where y lies down the rectangle, as a ratio clamped into [0,1]. */
  function YRate(r: Rect, y: int): (rate: real)
    ensures r.height == 0 ==> rate == 0.0
    ensures 0.0 <= rate <= 1.0
    ensures r.height > 0 && r.o.y <= y <= End(r).y ==> rate * r.height as real == (y - r.o.y) as real
    ensures r.height > 0 && y <= r.o.y ==> rate == 0.0
    ensures r.height > 0 && y >= End(r).y ==> rate == 1.0
  {
    AxisRate(y, r.o.y, r.height)
  }

  /** The rates of the source's own test rectangle (100,100,100,100). */
  lemma RatesOfTestRect()
    ensures XRate(Rect(Point(100, 100), 100, 100), 150) == 0.5
    ensures YRate(Rect(Point(100, 100), 100, 100), 150) == 0.5
    ensures XRate(Rect(Point(100, 100), 100, 100), 50) == 0.0
    ensures YRate(Rect(Point(100, 100), 100, 100), 50) == 0.0
    ensures XRate(Rect(Point(100, 100), 100, 100), 200) == 1.0
    ensures YRate(Rect(Point(100, 100), 100, 100), 200) == 1.0
  {
  }

  /** Shrinks by x on the left and the right and by y at the top and the bottom.
      The origin never goes negative and the sizes never go below zero. */
  function Shrink(r: Rect, x: int, y: int): (s: Rect)
    ensures s.o.x >= 0 && s.o.y >= 0 && s.width >= 0 && s.height >= 0
    ensures s.width == Max(0, r.width - 2 * x) && s.height == Max(0, r.height - 2 * y)
    ensures r.o.x + x >= 0 ==> s.o.x == r.o.x + x
    ensures r.o.y + y >= 0 ==> s.o.y == r.o.y + y
  {
    var xo := Max(r.o.x + x, 0);
    var yo := Max(r.o.y + y, 0);
    var xs := Max(r.width - x - x, 0);
    var ys := Max(r.height - y - y, 0);
    Rect(Point(xo, yo), xs, ys)
  }

  /** A rectangle with a non-negative origin shrunk by margins that fit in it
      stays inside it. */
  lemma ShrinkInside(r: Rect, x: int, y: int)
    requires r.o.x >= 0 && r.o.y >= 0 && x >= 0 && y >= 0
    requires 2 * x <= r.width && 2 * y <= r.height
    ensures IsIn(Shrink(r, x, y).o, r) && IsIn(End(Shrink(r, x, y)), r)
  {
  }

  /** Both corners of `r` lie in `area`. */
  predicate Within(r: Rect, area: Rect) {
    IsIn(r.o, area) && IsIn(End(r), area)
  }

  /** The common area of two rectangles, or None when they do not meet. */
  function And(mine: Rect, another: Rect): (a: Option<Rect>)
    ensures a.Some? ==> a.value.width >= 0 && a.value.height >= 0
    ensures a.Some? ==> IsIn(a.value.o, mine) && IsIn(a.value.o, another)
    ensures a.Some? ==> IsIn(End(a.value), mine) && IsIn(End(a.value), another)
  {
    var xo := Max(another.o.x, mine.o.x);
    if xo > End(another).x || xo > End(mine).x then None
    else
      var xe := Min(End(another).x, End(mine).x);
      if xe < another.o.x || xe < mine.o.x then None
      else
        var yo := Max(another.o.y, mine.o.y);
        if yo > End(another).y || yo > End(mine).y then None
        else
          var ye := Min(End(another).y, End(mine).y);
          if ye < another.o.y || ye < mine.o.y then None
          else Some(Rect(Point(xo, yo), xe - xo, ye - yo))
  }

  /** On some axis the larger origin lies beyond the smaller end. */
  predicate Disjoint(a: Rect, b: Rect) {
    || Max(a.o.x, b.o.x) > Min(End(a).x, End(b).x)
    || Max(a.o.y, b.o.y) > Min(End(a).y, End(b).y)
  }

  /** And is None exactly when the rectangles are disjoint on an axis. */
  lemma AndNoneIffDisjoint(a: Rect, b: Rect)
    ensures And(a, b).None? <==> Disjoint(a, b)
  {
  }

  /** And does not depend on the order of its operands. */
  lemma AndCommutative(a: Rect, b: Rect)
    ensures And(a, b) == And(b, a)
  {
  }

  /** A point is in the common area iff it is in both rectangles. */
  lemma AndIsIntersection(a: Rect, b: Rect, p: Point)
    ensures (And(a, b).Some? && IsIn(p, And(a, b).value)) <==> (IsIn(p, a) && IsIn(p, b))
  {
  }

  /** The same, for every point of a common area at once. */
  lemma AndIsIntersectionAll(a: Rect, b: Rect)
    ensures And(a, b).Some? ==> forall p :: IsIn(p, And(a, b).value) <==> (IsIn(p, a) && IsIn(p, b))
  {
    forall p | And(a, b).Some?
      ensures IsIn(p, And(a, b).value) <==> (IsIn(p, a) && IsIn(p, b))
    {
      AndIsIntersection(a, b, p);
    }
  }

  /** A rectangle with non-negative sizes meets itself in itself. */
  lemma AndIdempotent(r: Rect)
    requires r.width >= 0 && r.height >= 0
    ensures And(r, r) == Some(r)
  {
  }

  /** The worked example of the source: overlapping 100x100 squares meet in an
      80x80 square at (20,20), and a 10x10 square at the origin misses it. */
  lemma AndExample()
    ensures And(Rect(Origin, 100, 100), Rect(Point(20, 20), 100, 100)) == Some(Rect(Point(20, 20), 80, 80))
    ensures And(Rect(Point(20, 20), 100, 100), Rect(Origin, 100, 100)) == Some(Rect(Point(20, 20), 80, 80))
    ensures And(Rect(Point(20, 20), 80, 80), Rect(Point(20, 20), 80, 80)) == Some(Rect(Point(20, 20), 80, 80))
    ensures And(Rect(Origin, 10, 10), Rect(Point(20, 20), 80, 80)) == None
  {
  }

  /** Clamps v into [lo, lo + size]. */
  function Clamp(v: int, lo: int, size: int): (c: int)
    requires size >= 0
    ensures lo <= c <= lo + size
    ensures lo <= v <= lo + size ==> c == v
    ensures v < lo ==> c == lo
    ensures v > lo + size ==> c == lo + size
  {
    if v < lo then lo else if v > lo + size then lo + size else v
  }

  /** x bounded by the left and right edges of the rectangle. */
  function BoundX(r: Rect, x: int): (b: int)
    ensures r.width >= 0 ==> r.o.x <= b <= End(r).x
    ensures r.width >= 0 && r.o.x <= x <= End(r).x ==> b == x
    ensures x < r.o.x ==> b == r.o.x
  {
    if x < r.o.x then r.o.x else if x > r.o.x + r.width then r.o.x + r.width else x
  }

  /** y bounded by the top and bottom edges of the rectangle. */
  function BoundY(r: Rect, y: int): (b: int)
    ensures r.height >= 0 ==> r.o.y <= b <= End(r).y
    ensures r.height >= 0 && r.o.y <= y <= End(r).y ==> b == y
    ensures y < r.o.y ==> b == r.o.y
  {
    if y < r.o.y then r.o.y else if y > r.o.y + r.height then r.o.y + r.height else y
  }

  /** Bounding is idempotent and agrees with Clamp for a non-negative size. */
  lemma BoundAgreesWithClamp(r: Rect, x: int, y: int)
    requires r.width >= 0 && r.height >= 0
    ensures BoundX(r, x) == Clamp(x, r.o.x, r.width) && BoundX(r, BoundX(r, x)) == BoundX(r, x)
    ensures BoundY(r, y) == Clamp(y, r.o.y, r.height) && BoundY(r, BoundY(r, y)) == BoundY(r, y)
  {
  }
}
