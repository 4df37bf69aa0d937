/** Go's `image.Point` and `image.Rectangle`, with the semantics the Go
    standard library gives them: a rectangle is any pair of corners (it may
    be inverted), `Dx`/`Dy` may be negative, `Add` translates both corners,
    `Rect` canonicalises its corners and `Overlaps` is a half-open test that
    is false for empty rectangles. Go's `int` is 64 bits wide; screen
    coordinates stay far from that bound, so coordinates are unbounded here. */
module Geometry {

  datatype Point = Point(x: int, y: int)

  const Origin := Point(0, 0)

  function Plus(p: Point, q: Point): Point {
    Point(p.x + q.x, p.y + q.y)
  }

  function Minus(p: Point, q: Point): Point {
    Point(p.x - q.x, p.y - q.y)
  }

  /** `image.Rectangle{Min, Max}`; the zero value is `ZeroRect`. */
  datatype Rectangle = Rectangle(min: Point, max: Point)

  const ZeroRect := Rectangle(Origin, Origin)

  /** `r.Dx()`: the width, negative exactly when the corners are inverted
      horizontally; a rectangle without positive width is empty. */
  function Dx(r: Rectangle): (d: int)
    ensures d < 0 <==> r.max.x < r.min.x
    ensures d <= 0 ==> Empty(r)
    ensures r.min.x + d == r.max.x
  {
    r.max.x - r.min.x
  }

  /** `r.Dy()`: the height, negative exactly when the corners are inverted
      vertically; a rectangle without positive height is empty. */
  function Dy(r: Rectangle): (d: int)
    ensures d < 0 <==> r.max.y < r.min.y
    ensures d <= 0 ==> Empty(r)
    ensures r.min.y + d == r.max.y
  {
    r.max.y - r.min.y
  }

  /** `r.Add(p)`: the rectangle translated by `p`. */
  function Add(r: Rectangle, p: Point): (s: Rectangle)
    ensures Minus(s.min, r.min) == p && Minus(s.max, r.max) == p
    ensures Dx(s) == Dx(r) && Dy(s) == Dy(r)
  {
    Rectangle(Plus(r.min, p), Plus(r.max, p))
  }

  /** `image.Rect(x0, y0, x1, y1)`: the corners are swapped where needed so
      that `Min <= Max` on both axes. */
  function Rect(x0: int, y0: int, x1: int, y1: int): (r: Rectangle)
    ensures r.min.x <= r.max.x && r.min.y <= r.max.y
    ensures multiset{r.min.x, r.max.x} == multiset{x0, x1}
    ensures multiset{r.min.y, r.max.y} == multiset{y0, y1}
  {
    var (lx, hx) := if x0 > x1 then (x1, x0) else (x0, x1);
    var (ly, hy) := if y0 > y1 then (y1, y0) else (y0, y1);
    Rectangle(Point(lx, ly), Point(hx, hy))
  }

  /** `r.Empty()`: the rectangle contains no points. */
  predicate Empty(r: Rectangle) {
    r.min.x >= r.max.x || r.min.y >= r.max.y
  }

  /** `r.Overlaps(s)`: both are non-empty and their half-open interiors
      intersect. */
  predicate Overlaps(r: Rectangle, s: Rectangle) {
    && !Empty(r) && !Empty(s)
    && r.min.x < s.max.x && s.min.x < r.max.x
    && r.min.y < s.max.y && s.min.y < r.max.y
  }

  /** `p.In(r)`: p lies in the half-open rectangle. */
  predicate In(p: Point, r: Rectangle) {
    r.min.x <= p.x < r.max.x && r.min.y <= p.y < r.max.y
  }

  /** The one-unit rectangle a cursor position is turned into before it is
      checked against a zone: `image.Rect(x, y, x+1, y+1)`. */
  function CursorCell(p: Point): (c: Rectangle)
    ensures !Empty(c) && In(p, c)
    ensures forall q :: In(q, c) ==> q == p
  {
    Rect(p.x, p.y, p.x + 1, p.y + 1)
  }

  /** Overlapping a cursor cell is exactly containing the cursor point. */
  lemma CursorOverlapsIffIn(p: Point, r: Rectangle)
    ensures Overlaps(CursorCell(p), r) <==> In(p, r)
  {
  }

  /** A rectangle is empty exactly when no point lies in it; a non-empty
      one contains its `Min` corner. */
  lemma EmptyIffNoPoint(r: Rectangle)
    ensures Empty(r) <==> forall p :: !In(p, r)
  {
    if !Empty(r) {
      assert In(r.min, r);
    }
  }

  /** Two rectangles overlap exactly when some point lies in both; when
      they do, the larger of their `Min` corners, taken per axis, is one. */
  lemma OverlapsIffCommonPoint(r: Rectangle, s: Rectangle)
    ensures Overlaps(r, s) <==> exists p :: In(p, r) && In(p, s)
  {
    if Overlaps(r, s) {
      var corner := Point(if r.min.x < s.min.x then s.min.x else r.min.x,
                          if r.min.y < s.min.y then s.min.y else r.min.y);
      assert In(corner, r) && In(corner, s);
    }
  }

  /** Translation composes by adding the offsets. */
  lemma AddAdd(r: Rectangle, a: Point, b: Point)
    ensures Add(Add(r, a), b) == Add(r, Plus(a, b))
  {
  }
}
