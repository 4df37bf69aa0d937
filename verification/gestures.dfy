/** Sequences of inputs driving one window: the invariant every run keeps,
    that frames never fire events, and what a complete drag gesture does. */
module Gestures {
  import opened Optional
  import opened Geometry
  import opened Constraints
  import opened WindowModel

  /** Everything that reaches a window: handler invocations, one `Render`
      per frame, and the public methods. */
  datatype Input =
    | PressOn(part: Part, pointer: Point)
    | ReleaseOn(part: Part, inside: bool)
    | RenderAt(pointer: Point, layerActive: bool)
    | CloseNow
    | SetClose(f: Option<nat>)
    | Relocate(r: Rectangle)

  /** One input applied to a window. */
  function Apply(w: Window, i: Input): (s: Step)
    ensures s.window.config == w.config
    ensures Inv(w) ==> Inv(s.window)
    ensures i.RenderAt? ==> s.effects == []
  {
    match i
    case PressOn(part, p) => Press(w, part, p)
    case ReleaseOn(part, inside) => Release(w, part, inside)
    case RenderAt(p, active) => Frame(w, p, active)
    case CloseNow => Step(w, Close(w))
    case SetClose(f) => Step(SetCloseFunction(w, f), [])
    case Relocate(r) => Step(SetLocation(w, r), [])
  }

  /** The inputs applied in order; the effects are concatenated in order. */
  function Run(w: Window, inputs: seq<Input>): (s: Step)
    ensures s.window.config == w.config
    ensures Inv(w) ==> Inv(s.window)
    decreases |inputs|
  {
    if |inputs| == 0 then Step(w, [])
    else
      var first := Apply(w, inputs[0]);
      var rest := Run(first.window, inputs[1..]);
      Step(rest.window, first.effects + rest.effects)
  }

  /** Running `a` then `b` is running `a + b`. */
  lemma {:induction false} RunAppend(w: Window, a: seq<Input>, b: seq<Input>)
    ensures Run(w, a + b).window == Run(Run(w, a).window, b).window
    ensures Run(w, a + b).effects == Run(w, a).effects + Run(Run(w, a).window, b).effects
    decreases |a|
  {
    if |a| == 0 {
      assert a + b == b;
    } else {
      assert (a + b)[1..] == a[1..] + b;
      RunAppend(Apply(w, a[0]).window, a[1..], b);
    }
  }

  /** Every window reachable from construction keeps the invariant: a drag
      is in progress only with a title bar and the draggable option, a
      resize only with the resizeable option, and at most one hover flag is
      set. */
  lemma ReachableWindowsKeepInv(c: Config, locations: seq<Rectangle>, inputs: seq<Input>)
    ensures var w := Run(NewWindow(c, locations), inputs).window;
      && (w.dragging ==> c.hasTitleBar && c.draggable)
      && (w.resizing ==> c.resizeable)
      && !(w.resizingWidth && w.resizingHeight)
  {
  }

  /** One frame per cursor sample. */
  function Renders(samples: seq<(Point, bool)>): (inputs: seq<Input>)
    ensures |inputs| == |samples|
    ensures forall k :: 0 <= k < |samples| ==> inputs[k] == RenderAt(samples[k].0, samples[k].1)
  {
    seq(|samples|, k requires 0 <= k < |samples| => RenderAt(samples[k].0, samples[k].1))
  }

  /** The cursor position of the last sample, or `p0` when there is none. */
  function LastPointer(p0: Point, samples: seq<(Point, bool)>): Point {
    if |samples| == 0 then p0 else samples[|samples| - 1].0
  }

  /** `Render` never fires an event, over any number of frames; the
      gesture flags are left as they were. */
  lemma {:induction false} FramesEmitNothing(w: Window, samples: seq<(Point, bool)>)
    ensures Run(w, Renders(samples)).effects == []
    ensures Run(w, Renders(samples)).window.dragging == w.dragging
    ensures Run(w, Renders(samples)).window.resizing == w.resizing
    decreases |samples|
  {
    if |samples| > 0 {
      assert Renders(samples)[1..] == Renders(samples[1..]);
      FramesEmitNothing(Frame(w, samples[0].0, samples[0].1).window, samples[1..]);
    }
  }

  /** Over a run of drag frames the origin moves by exactly the cursor's
      displacement since the sample the drag started from, whatever the
      limits do to the size; a window already within its limits is
      translated as a whole. */
  lemma {:induction false} DragFramesTrackPointer(w: Window, samples: seq<(Point, bool)>)
    requires w.dragging
    ensures var w' := Run(w, Renders(samples)).window;
      && w'.rect.min == Plus(w.rect.min, Minus(LastPointer(w.startingPoint, samples), w.startingPoint))
      && w'.startingPoint == LastPointer(w.startingPoint, samples)
    ensures WithinLimits(w.config.limits, w.rect) ==>
      Run(w, Renders(samples)).window.rect == Add(w.rect, Minus(LastPointer(w.startingPoint, samples), w.startingPoint))
    decreases |samples|
  {
    if |samples| > 0 {
      var p := samples[0].0;
      var w1 := Frame(w, p, samples[0].1).window;
      assert Renders(samples)[1..] == Renders(samples[1..]);
      assert LastPointer(p, samples[1..]) == LastPointer(w.startingPoint, samples);
      DragFramesTrackPointer(w1, samples[1..]);
      if WithinLimits(w.config.limits, w.rect) {
        AddAdd(w.rect, Minus(p, w.startingPoint), Minus(LastPointer(p, samples[1..]), p));
      }
    }
  }

  /** A whole drag gesture: press on the title bar at `p0`, any number of
      frames, release on the title bar. Exactly one move event fires, on the
      release, carrying the final rectangle, whose origin has moved by the
      cursor's displacement since the press; the drag is over afterwards. */
  lemma DragGesture(w: Window, p0: Point, samples: seq<(Point, bool)>, inside: bool)
    requires DragHandlers(w.config)
    ensures var s := Run(w, [PressOn(TitleBarPart, p0)] + Renders(samples) + [ReleaseOn(TitleBarPart, inside)]);
      && s.effects == [Moved(s.window.rect)]
      && !s.window.dragging
      && s.window.rect.min == Plus(w.rect.min, Minus(LastPointer(p0, samples), p0))
    ensures WithinLimits(w.config.limits, w.rect) ==>
      Run(w, [PressOn(TitleBarPart, p0)] + Renders(samples) + [ReleaseOn(TitleBarPart, inside)]).effects
        == [Moved(Add(w.rect, Minus(LastPointer(p0, samples), p0)))]
  {
    var press := [PressOn(TitleBarPart, p0)];
    var release := [ReleaseOn(TitleBarPart, inside)];
    var w1 := Press(w, TitleBarPart, p0).window;
    RunAppend(w, press, Renders(samples));
    RunAppend(w, press + Renders(samples), release);
    assert Run(w, press).window == w1 && Run(w, press).effects == [];
    FramesEmitNothing(w1, samples);
    DragFramesTrackPointer(w1, samples);
  }

  /** A concrete drag: press at (10,10), frames at
      (15,12) and (20,20), release: one move event with the rectangle
      translated by (10,10). */
  lemma DragByTenAndTen(r: Rectangle)
    ensures var w := NewWindow(Config(true, true, false, NoLimits, false), [r]);
      Run(w, [PressOn(TitleBarPart, Point(10, 10)),
              RenderAt(Point(15, 12), true), RenderAt(Point(20, 20), true),
              ReleaseOn(TitleBarPart, true)]).effects
        == [Moved(Add(r, Point(10, 10)))]
  {
    var w := NewWindow(Config(true, true, false, NoLimits, false), [r]);
    var samples := [(Point(15, 12), true), (Point(20, 20), true)];
    assert Renders(samples) == [RenderAt(Point(15, 12), true), RenderAt(Point(20, 20), true)];
    DragGesture(w, Point(10, 10), samples, true);
    assert [PressOn(TitleBarPart, Point(10, 10))] + Renders(samples) + [ReleaseOn(TitleBarPart, true)]
        == [PressOn(TitleBarPart, Point(10, 10)),
            RenderAt(Point(15, 12), true), RenderAt(Point(20, 20), true),
            ReleaseOn(TitleBarPart, true)];
  }

  /** A second release after a completed gesture fires nothing. */
  lemma SecondReleaseFiresNothing(w: Window, part: Part, inside: bool)
    requires part != ContainerPart
    ensures var s := Release(w, part, inside);
      Release(s.window, part, inside).effects == []
  {
  }

  /** A completion event fires exactly when the gesture's flag was set and
      its handler is installed. */
  lemma ReleaseFiresIffGestureActive(w: Window, part: Part, inside: bool)
    requires part != ContainerPart
    ensures |Release(w, part, inside).effects| <= 1
    ensures |Release(w, part, inside).effects| == 1 <==>
      (part == TitleBarPart && DragHandlers(w.config) && w.dragging)
      || (part == ContentsPart && w.config.resizeable && w.resizing)
  {
  }

  /** With close-on-click, a release on the container calls the close
      callback exactly when it is outside the window and a callback is set,
      and then the call is the same as `Close`. */
  lemma CloseOnClickOutside(w: Window, inside: bool)
    requires w.config.closeOnClick
    ensures Release(w, ContainerPart, inside).effects != [] <==> !inside && w.closeFunc.Some?
    ensures !inside ==> Release(w, ContainerPart, inside).effects == Close(w)
  {
  }

  /** Installing a callback and then releasing outside a close-on-click
      window invokes exactly that callback once; installing nil, or
      releasing inside, invokes nothing. */
  lemma SetCloseThenClickOutside(w: Window, f: Option<nat>, inside: bool)
    requires w.config.closeOnClick
    ensures Run(w, [SetClose(f), ReleaseOn(ContainerPart, inside)]).effects
      == if f.Some? && !inside then [CloseCalled(f.value)] else []
  {
    var inputs := [SetClose(f), ReleaseOn(ContainerPart, inside)];
    var w1 := SetCloseFunction(w, f);
    assert inputs[1..] == [ReleaseOn(ContainerPart, inside)];
    assert Run(w, inputs).effects == Run(w1, inputs[1..]).effects;
    assert Run(w1, inputs[1..]).effects == Release(w1, ContainerPart, inside).effects;
    SetCloseFunctionThenClose(w, f, f);
  }
}
