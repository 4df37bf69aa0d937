/** The resize frame skips its update whenever the cursor sits exactly on
    the press-time sample (widget/window.go:282). That guard suits the
    incremental drag, but the resize computes the edge absolutely from the
    press-time sample, so returning the cursor to where it was pressed
    leaves the last, stale size instead of the original one. */
module ResizeReturn {
  import opened Geometry
  import opened Constraints
  import opened WindowModel
  import opened Gestures
  import opened Scenarios

  /** As written: press at (97,50) on the right edge of a 100-wide window,
      move to (107,50), move back to (97,50). The width stays 110, while
      the press-time edge was at 100. */
  lemma StaleSizeAfterReturn()
    ensures var w := ResizeableWindow(NoLimits, Rectangle(Point(0, 0), Point(100, 100)));
      var w' := Run(w, [RenderAt(Point(97, 50), true), PressOn(ContentsPart, Point(97, 50)),
                        RenderAt(Point(107, 50), true), RenderAt(Point(97, 50), true)]).window;
      w'.resizing && w'.originalSize.x == 100 && w'.rect.max.x == 110
  {
    var w0 := ResizeableWindow(NoLimits, Rectangle(Point(0, 0), Point(100, 100)));
    assert InRightZone(w0.rect, Point(97, 50));
    var w2 := Press(Frame(w0, Point(97, 50), true).window, ContentsPart, Point(97, 50)).window;
    var w3 := Frame(w2, Point(107, 50), true).window;
    assert w3.rect.max.x == 110;
    assert InRightZone(w3.rect, Point(107, 50));
  }

  /** The resize step as evidently intended: the edge always follows the
      cursor's displacement from the press-time sample, with no guard. */
  function ResizeStepIntended(w: Window, p: Point): (w': Window)
    ensures !w.resizing ==> w' == w
    ensures w'.rect.min == w.rect.min
    ensures w' == w.(rect := w'.rect)
    ensures w.resizing && w.resizingWidth && !w.resizingHeight ==>
      && Dx(w'.rect) == ClampLength(w.originalSize.x - (w.startingPoint.x - p.x) - w.rect.min.x,
                                    MinX(w.config.limits), MaxX(w.config.limits))
      && Dy(w'.rect) == ClampLength(Dy(w.rect), MinY(w.config.limits), MaxY(w.config.limits))
    ensures w.resizing && w.resizingHeight && !w.resizingWidth ==>
      && Dy(w'.rect) == ClampLength(w.originalSize.y - (w.startingPoint.y - p.y) - w.rect.min.y,
                                    MinY(w.config.limits), MaxY(w.config.limits))
      && Dx(w'.rect) == ClampLength(Dx(w.rect), MinX(w.config.limits), MaxX(w.config.limits))
  {
    if w.resizing then
      var a := if w.resizingWidth
               then SetLocation(w, w.rect.(max := w.rect.max.(x := w.originalSize.x - (w.startingPoint.x - p.x))))
               else w;
      if w.resizingHeight
      then SetLocation(a, a.rect.(max := a.rect.max.(y := a.originalSize.y - (a.startingPoint.y - p.y))))
      else a
    else w
  }

  /** Corrected: with the cursor back on the press-time sample, a width
      resize restores the press-time right edge, whatever edge the previous
      frames left behind, whenever that edge's width is within the limits. */
  lemma IntendedResizeReturnsToPressEdge(w: Window)
    requires w.resizing && w.resizingWidth && !w.resizingHeight
    requires InRange(w.originalSize.x - w.rect.min.x, MinX(w.config.limits), MaxX(w.config.limits))
    ensures ResizeStepIntended(w, w.startingPoint).rect.max.x == w.originalSize.x
  {
  }

  /** Corrected: the intended step is path-independent, two windows that
      differ only in their current right edge end in the same state. */
  lemma IntendedResizeForgetsCurrentEdge(w: Window, edge: int, p: Point)
    requires w.resizing && w.resizingWidth && !w.resizingHeight
    ensures ResizeStepIntended(w.(rect := w.rect.(max := w.rect.max.(x := edge))), p) == ResizeStepIntended(w, p)
  {
  }

  /** A frame with the intended resize step in place of the guarded one. */
  function FrameIntended(w: Window, p: Point, layerActive: bool): (s: Step)
    ensures s.effects == []
    ensures s.window.config == w.config && s.window.closeFunc == w.closeFunc
    ensures s.window.dragging == w.dragging && s.window.resizing == w.resizing
    ensures Inv(w) ==> Inv(s.window)
  {
    Step(HoverStep(ResizeStepIntended(DragStep(w, p), p), p, layerActive), [])
  }

  /** The correction changes nothing except on a frame whose cursor sits on
      the sample while a resize is in progress. */
  lemma FrameIntendedDiffersOnlyOnSample(w: Window, p: Point, layerActive: bool)
    ensures FrameIntended(w, p, layerActive) != Frame(w, p, layerActive) ==>
      w.resizing && DragStep(w, p).startingPoint == p
  {
  }
}
