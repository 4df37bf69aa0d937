/** The size-constraint clamp applied by `Window.SetLocation`
    (widget/window.go:224-244): a minimum is applied first, a maximum second,
    and only the `Max` corner is ever moved. */
module Constraints {
  import opened Optional
  import opened Geometry

  /** The window's `MinSize` and `MaxSize`; each may be nil. */
  datatype SizeLimits = SizeLimits(minSize: Option<Point>, maxSize: Option<Point>)

  const NoLimits := SizeLimits(None, None)

  function MinX(l: SizeLimits): Option<int> {
    if l.minSize.Some? then Some(l.minSize.value.x) else None
  }

  function MinY(l: SizeLimits): Option<int> {
    if l.minSize.Some? then Some(l.minSize.value.y) else None
  }

  function MaxX(l: SizeLimits): Option<int> {
    if l.maxSize.Some? then Some(l.maxSize.value.x) else None
  }

  function MaxY(l: SizeLimits): Option<int> {
    if l.maxSize.Some? then Some(l.maxSize.value.y) else None
  }

  /** The length `d` lies within the optional bounds `lo` and `hi`. */
  predicate InRange(d: int, lo: Option<int>, hi: Option<int>) {
    (lo.Some? ==> lo.value <= d) && (hi.Some? ==> d <= hi.value)
  }

  /** On each axis the minimum does not exceed the maximum. */
  predicate Consistent(l: SizeLimits) {
    l.minSize.Some? && l.maxSize.Some? ==>
      l.minSize.value.x <= l.maxSize.value.x && l.minSize.value.y <= l.maxSize.value.y
  }

  /** The rectangle's size satisfies every limit that is set. */
  predicate WithinLimits(l: SizeLimits, r: Rectangle) {
    InRange(Dx(r), MinX(l), MaxX(l)) && InRange(Dy(r), MinY(l), MaxY(l))
  }

  /** What the clamp does to one axis' length: raised to `lo` if below it,
      then lowered to `hi` if above it. With `lo <= hi` the result is the
      point of `[lo, hi]` nearest to `d`; with `lo > hi` it is `hi`. */
  function ClampLength(d: int, lo: Option<int>, hi: Option<int>): (r: int)
    ensures hi.Some? ==> r <= hi.value
    ensures lo.Some? && (hi.None? || lo.value <= hi.value) ==> lo.value <= r
    ensures InRange(d, lo, hi) ==> r == d
    ensures lo.Some? && d < lo.value && (hi.None? || lo.value <= hi.value) ==> r == lo.value
    ensures hi.Some? && d > hi.value ==> r == hi.value
    ensures lo.Some? && hi.Some? && lo.value > hi.value ==> r == hi.value
  {
    var raised := if lo.Some? && d < lo.value then lo.value else d;
    if hi.Some? && raised > hi.value then hi.value else raised
  }

  /** `Window.SetLocation`'s clamp, step for step as the Go code mutates
      its copy of `rect`: minimum width, minimum height, maximum width,
      maximum height, each by moving `Max` to `Min + limit`. */
  function Clamp(l: SizeLimits, r: Rectangle): (s: Rectangle)
    ensures s.min == r.min
    ensures Dx(s) == ClampLength(Dx(r), MinX(l), MaxX(l))
    ensures Dy(s) == ClampLength(Dy(r), MinY(l), MaxY(l))
    ensures l == NoLimits ==> s == r
  {
    var a := r;
    var a := if l.minSize.Some? && Dx(a) < l.minSize.value.x
             then a.(max := a.max.(x := a.min.x + l.minSize.value.x)) else a;
    var a := if l.minSize.Some? && Dy(a) < l.minSize.value.y
             then a.(max := a.max.(y := a.min.y + l.minSize.value.y)) else a;
    var a := if l.maxSize.Some? && Dx(a) > l.maxSize.value.x
             then a.(max := a.max.(x := a.min.x + l.maxSize.value.x)) else a;
    var a := if l.maxSize.Some? && Dy(a) > l.maxSize.value.y
             then a.(max := a.max.(y := a.min.y + l.maxSize.value.y)) else a;
    a
  }

  /** With consistent limits the clamped rectangle satisfies all of them. */
  lemma ClampEstablishesLimits(l: SizeLimits, r: Rectangle)
    requires Consistent(l)
    ensures WithinLimits(l, Clamp(l, r))
  {
  }

  /** A rectangle that already satisfies the limits is returned as it is. */
  lemma ClampKeepsRectWithinLimits(l: SizeLimits, r: Rectangle)
    requires WithinLimits(l, r)
    ensures Clamp(l, r) == r
  {
  }

  /** Clamping twice is clamping once, even when a minimum exceeds its
      maximum. */
  lemma ClampIdempotent(l: SizeLimits, r: Rectangle)
    ensures Clamp(l, Clamp(l, r)) == Clamp(l, r)
  {
  }

  /** Clamping commutes with translation: the clamp depends only on the
      size and keeps the origin. */
  lemma ClampTranslate(l: SizeLimits, r: Rectangle, p: Point)
    ensures Clamp(l, Add(r, p)) == Add(Clamp(l, r), p)
  {
  }

  /** The clamp changes a rectangle exactly when it violates a limit. */
  lemma ClampFixedPointIffWithinLimits(l: SizeLimits, r: Rectangle)
    requires Consistent(l)
    ensures Clamp(l, r) == r <==> WithinLimits(l, r)
  {
  }
}
