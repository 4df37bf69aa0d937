/** Concrete scenarios run through the model: resizing against limits, the
    `Location` option that its doc comment describes differently, and edge
    cases of the gesture flags and the resize formula. */
module Scenarios {
  import opened Optional
  import opened Geometry
  import opened Constraints
  import opened WindowModel
  import opened Gestures

  /** A resizeable window without title bar, with the given limits. */
  function ResizeableWindow(l: SizeLimits, r: Rectangle): (w: Window)
    ensures Inv(w) && w.config.resizeable && !DragHandlers(w.config) && !w.config.closeOnClick
    ensures w.rect == r
  {
    NewWindow(Config(false, false, true, l, false), [r])
  }

  const Limits100x50To400x300 := SizeLimits(Some(Point(100, 50)), Some(Point(400, 300)))

  /** Hovering 2 units inside the right edge of a 200-wide window selects
      width-resize; pressing there and dragging far right ends at the
      maximum width 400, and one resize event carries that rectangle. */
  lemma ResizeWidthClampedToMax()
    ensures var w := ResizeableWindow(Limits100x50To400x300, Rectangle(Point(0, 0), Point(200, 100)));
      Run(w, [RenderAt(Point(198, 50), true), PressOn(ContentsPart, Point(198, 50)),
              RenderAt(Point(500, 50), true), ReleaseOn(ContentsPart, true)]).effects
        == [Resized(Rectangle(Point(0, 0), Point(400, 100)))]
  {
    var w0 := ResizeableWindow(Limits100x50To400x300, Rectangle(Point(0, 0), Point(200, 100)));
    var w1 := Frame(w0, Point(198, 50), true).window;
    assert InRightZone(w0.rect, Point(198, 50));
    assert w1.resizingWidth && !w1.resizingHeight;
    var w2 := Press(w1, ContentsPart, Point(198, 50)).window;
    var w3 := Frame(w2, Point(500, 50), true).window;
    assert w3.rect == Rectangle(Point(0, 0), Point(400, 100));
  }

  /** The same gesture dragged far left ends at the minimum width 100. */
  lemma ResizeWidthClampedToMin()
    ensures var w := ResizeableWindow(Limits100x50To400x300, Rectangle(Point(0, 0), Point(200, 100)));
      Run(w, [RenderAt(Point(198, 50), true), PressOn(ContentsPart, Point(198, 50)),
              RenderAt(Point(50, 50), true), ReleaseOn(ContentsPart, true)]).effects
        == [Resized(Rectangle(Point(0, 0), Point(100, 100)))]
  {
    var w0 := ResizeableWindow(Limits100x50To400x300, Rectangle(Point(0, 0), Point(200, 100)));
    var w1 := Frame(w0, Point(198, 50), true).window;
    assert InRightZone(w0.rect, Point(198, 50));
    assert w1.resizingWidth && !w1.resizingHeight;
    var w2 := Press(w1, ContentsPart, Point(198, 50)).window;
    var w3 := Frame(w2, Point(50, 50), true).window;
    assert w3.rect == Rectangle(Point(0, 0), Point(100, 100));
  }

  /** The `Location` option hands its rectangle to the container without
      the clamp, although its doc comment says it accounts for MinSize and
      MaxSize: a window limited to 10x10 starts 100 wide, while
      `SetLocation` with the same rectangle gives width 10. */
  lemma LocationBypassesClamp()
    ensures var l := SizeLimits(None, Some(Point(10, 10)));
      var r := Rectangle(Point(0, 0), Point(100, 100));
      var w := ResizeableWindow(l, r);
      && Dx(w.rect) == 100 && !WithinLimits(l, w.rect)
      && Dx(SetLocation(w, r).rect) == 10
  {
  }

  /** `dragging` and `resizingWidth` can hold together: pressing the title
      bar of a resizeable window within 6 units of its right edge, after a
      frame has seen the cursor there. */
  lemma DragWhileHoveringRightEdge()
    ensures var w := NewWindow(Config(true, true, true, NoLimits, false), [Rectangle(Point(0, 0), Point(100, 100))]);
      var w' := Run(w, [RenderAt(Point(97, 5), true), PressOn(TitleBarPart, Point(97, 5))]).window;
      w'.dragging && w'.resizingWidth
  {
    var w := NewWindow(Config(true, true, true, NoLimits, false), [Rectangle(Point(0, 0), Point(100, 100))]);
    assert InRightZone(w.rect, Point(97, 5));
  }

  /** Without a minimum size a resize can drag the right edge past the
      left one: the rectangle's width becomes negative. */
  lemma ResizeCanInvertRectangle()
    ensures var w := ResizeableWindow(NoLimits, Rectangle(Point(0, 0), Point(100, 100)));
      var w' := Run(w, [RenderAt(Point(97, 50), true), PressOn(ContentsPart, Point(97, 50)),
                        RenderAt(Point(-20, 50), true)]).window;
      Dx(w'.rect) == -17
  {
    var w0 := ResizeableWindow(NoLimits, Rectangle(Point(0, 0), Point(100, 100)));
    assert InRightZone(w0.rect, Point(97, 50));
  }
}
