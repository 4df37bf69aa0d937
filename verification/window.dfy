/** The window of widget/window.go as an immutable state record with pure
    step functions. The container's `Rect` is modelled as the last rectangle
    handed to `container.SetLocation`; the cursor position is a parameter of
    every step; the input layer's `ActiveFor` answer is a boolean input to
    `Frame`. Every step returns the new state and the effects it emitted, in
    order: fired move/resize events and calls of the close callback. */
module WindowModel {
  import opened Optional
  import opened Geometry
  import opened Constraints

  /** Width of the hover zones along the right and bottom edges. */
  const EdgeZone := 6

  /** Construction-time choices (the `WindowOpt`s). The content container
      is always present; `hasTitleBar` records whether `TitleBar` is set. */
  datatype Config = Config(
    hasTitleBar: bool,
    draggable: bool,
    resizeable: bool,
    limits: SizeLimits,
    closeOnClick: bool)

  /** The widgets that carry handlers: the title bar, the contents and the
      outer container. */
  datatype Part = TitleBarPart | ContentsPart | ContainerPart

  /** `closeFunc` is the identity of the callback the manager installed,
      if any. `originalSize` holds the press-time `Rect.Max` corner, not a
      size (widget/window.go:103-104). */
  datatype Window = Window(
    config: Config,
    rect: Rectangle,
    closeFunc: Option<nat>,
    startingPoint: Point,
    dragging: bool,
    resizing: bool,
    resizingWidth: bool,
    resizingHeight: bool,
    originalSize: Point)

  /** What a step emits: `MoveEvent`/`ResizeEvent` fired with the window's
      rectangle, or the close callback invoked. */
  datatype Effect = Moved(rect: Rectangle) | Resized(rect: Rectangle) | CloseCalled(id: nat)

  datatype Step = Step(window: Window, effects: seq<Effect>)

  /** The title bar's press/release handlers exist only with a title bar
      and the draggable option; otherwise `Draggable` is ignored. */
  predicate DragHandlers(c: Config) {
    c.hasTitleBar && c.draggable
  }

  /** The children of the grid layout, in order. */
  function Children(c: Config): (parts: seq<Part>)
    ensures |parts| == if c.hasTitleBar then 2 else 1
    ensures ContentsPart in parts && parts[|parts| - 1] == ContentsPart
    ensures TitleBarPart in parts <==> c.hasTitleBar
    ensures c.hasTitleBar ==> parts[0] == TitleBarPart
    ensures ContainerPart !in parts
  {
    if c.hasTitleBar then [TitleBarPart, ContentsPart] else [ContentsPart]
  }

  /** The gesture/bookkeeping invariant every reachable window keeps. */
  predicate Inv(w: Window) {
    && (w.dragging ==> DragHandlers(w.config))
    && (w.resizing ==> w.config.resizeable)
    && !(w.resizingWidth && w.resizingHeight)
    && (w.resizingWidth || w.resizingHeight ==> w.config.resizeable)
  }

  /** `NewWindow`: every flag false and no close callback. The deferred
      `Location` actions run once each, in order, at the end of
      construction; each calls `container.SetLocation` directly, so the
      last one decides the rectangle and it is NOT clamped, although the
      option's doc comment says it accounts for MinSize and MaxSize. With no
      `Location` option the rectangle is Go's zero rectangle. */
  function NewWindow(c: Config, locations: seq<Rectangle>): (w: Window)
    ensures Inv(w)
    ensures w.config == c && w.closeFunc.None?
    ensures !w.dragging && !w.resizing && !w.resizingWidth && !w.resizingHeight
    ensures |locations| > 0 ==> w.rect == locations[|locations| - 1]
    ensures |locations| == 0 ==> w.rect == ZeroRect
  {
    var r := if |locations| == 0 then ZeroRect else locations[|locations| - 1];
    Window(c, r, None, Origin, false, false, false, false, Origin)
  }

  /** `Window.SetLocation`: the clamped rectangle becomes the container's. */
  function SetLocation(w: Window, r: Rectangle): (w': Window)
    ensures w'.rect.min == r.min
    ensures Dx(w'.rect) == ClampLength(Dx(r), MinX(w.config.limits), MaxX(w.config.limits))
    ensures Dy(w'.rect) == ClampLength(Dy(r), MinY(w.config.limits), MaxY(w.config.limits))
    ensures Consistent(w.config.limits) ==> WithinLimits(w.config.limits, w'.rect)
    ensures w.config.limits == NoLimits ==> w'.rect == r
    ensures w' == w.(rect := w'.rect)
  {
    w.(rect := Clamp(w.config.limits, r))
  }

  /** `SetCloseFunction`; `None` stands for passing nil. */
  function SetCloseFunction(w: Window, f: Option<nat>): (w': Window)
    ensures w'.closeFunc == f
    ensures w' == w.(closeFunc := f)
  {
    w.(closeFunc := f)
  }

  /** `Close`: invokes the close callback once if it is set, else nothing. */
  function Close(w: Window): (effects: seq<Effect>)
    ensures w.closeFunc.Some? ==> effects == [CloseCalled(w.closeFunc.value)]
    ensures w.closeFunc.None? ==> effects == []
  {
    if w.closeFunc.Some? then [CloseCalled(w.closeFunc.value)] else []
  }

  /** The callback installed last is the one `Close` invokes, exactly once;
      installing nil makes `Close` a no-op; nothing else in the window
      changes. */
  lemma SetCloseFunctionThenClose(w: Window, f: Option<nat>, g: Option<nat>)
    ensures Close(SetCloseFunction(w, f)) == if f.Some? then [CloseCalled(f.value)] else []
    ensures Close(SetCloseFunction(SetCloseFunction(w, g), f)) == Close(SetCloseFunction(w, f))
    ensures SetCloseFunction(w, f).(closeFunc := w.closeFunc) == w
  {
  }

  /** A mouse press on `part` with the cursor at `p`. The title bar's
      handler starts a drag; the contents' handler starts a resize whatever
      the hover flags say, sampling the cursor and the current `Max`
      corner. Presses never emit anything. */
  function Press(w: Window, part: Part, p: Point): (s: Step)
    ensures s.effects == []
    ensures s.window.rect == w.rect && s.window.config == w.config && s.window.closeFunc == w.closeFunc
    ensures s.window.resizingWidth == w.resizingWidth && s.window.resizingHeight == w.resizingHeight
    ensures part == TitleBarPart && DragHandlers(w.config) ==>
      s.window == w.(dragging := true, startingPoint := p)
    ensures part == ContentsPart && w.config.resizeable ==>
      s.window == w.(resizing := true, startingPoint := p, originalSize := w.rect.max)
    ensures s.window.dragging ==> w.dragging || (part == TitleBarPart && DragHandlers(w.config))
    ensures s.window.resizing ==> w.resizing || (part == ContentsPart && w.config.resizeable)
    ensures !(part == TitleBarPart && DragHandlers(w.config)) && !(part == ContentsPart && w.config.resizeable) ==>
      s.window == w
    ensures Inv(w) ==> Inv(s.window)
  {
    var w' :=
      match part
      case TitleBarPart =>
        if DragHandlers(w.config) then w.(startingPoint := p, dragging := true) else w
      case ContentsPart =>
        if w.config.resizeable then w.(startingPoint := p, originalSize := w.rect.max, resizing := true) else w
      case ContainerPart => w;
    Step(w', [])
  }

  /** A mouse release delivered to `part`; `inside` is the event's `Inside`
      field, read only by the close-on-click handler. A completed drag fires
      one move event and a completed resize one resize event, each with the
      current rectangle, and the flag is cleared. */
  function Release(w: Window, part: Part, inside: bool): (s: Step)
    ensures s.window.rect == w.rect && s.window.config == w.config && s.window.closeFunc == w.closeFunc
    ensures part == TitleBarPart ==>
      s.window == w.(dragging := w.dragging && !DragHandlers(w.config))
      && s.effects == (if DragHandlers(w.config) && w.dragging then [Moved(w.rect)] else [])
    ensures part == ContentsPart ==>
      s.window == w.(resizing := w.resizing && !w.config.resizeable)
      && s.effects == (if w.config.resizeable && w.resizing then [Resized(w.rect)] else [])
    ensures part == ContainerPart ==>
      s.window == w
      && s.effects == (if w.config.closeOnClick && !inside then Close(w) else [])
    ensures Inv(w) ==> Inv(s.window)
  {
    match part
    case TitleBarPart =>
      if DragHandlers(w.config) && w.dragging then Step(w.(dragging := false), [Moved(w.rect)])
      else Step(w, [])
    case ContentsPart =>
      if w.config.resizeable && w.resizing then Step(w.(resizing := false), [Resized(w.rect)])
      else Step(w, [])
    case ContainerPart =>
      if w.config.closeOnClick && !inside && w.closeFunc.Some? then Step(w, [CloseCalled(w.closeFunc.value)])
      else Step(w, [])
  }

  /** The drag part of a frame: an incremental move by the cursor's
      displacement since the last sample, clamped; the sample is then the
      cursor. The origin keeps its offset from the sample. */
  function DragStep(w: Window, p: Point): (w': Window)
    ensures !w.dragging || p == w.startingPoint ==> w' == w
    ensures w.dragging ==> w'.startingPoint == p
    ensures w.dragging ==> Minus(w'.rect.min, w'.startingPoint) == Minus(w.rect.min, w.startingPoint)
    ensures w.dragging && p != w.startingPoint ==>
      && Dx(w'.rect) == ClampLength(Dx(w.rect), MinX(w.config.limits), MaxX(w.config.limits))
      && Dy(w'.rect) == ClampLength(Dy(w.rect), MinY(w.config.limits), MaxY(w.config.limits))
    ensures w.dragging && WithinLimits(w.config.limits, w.rect) ==>
      w'.rect == Add(w.rect, Minus(p, w.startingPoint))
    ensures w' == w.(rect := w'.rect, startingPoint := w'.startingPoint)
  {
    if w.dragging && w.startingPoint != p then
      var moved := SetLocation(w, Add(w.rect, Minus(p, w.startingPoint)));
      moved.(startingPoint := p)
    else w
  }

  /** The resize part of a frame: on the axis the previous frame's hover
      flags select, the edge becomes the press-time edge minus the cursor's
      displacement from the press-time sample; the sample is not updated.
      Nothing happens while the cursor sits on the sample. */
  function ResizeStep(w: Window, p: Point): (w': Window)
    ensures !w.resizing || p == w.startingPoint ==> w' == w
    ensures w'.rect.min == w.rect.min
    ensures w' == w.(rect := w'.rect)
    ensures w.resizing && p != w.startingPoint && w.resizingWidth && !w.resizingHeight ==>
      && Dx(w'.rect) == ClampLength(w.originalSize.x - (w.startingPoint.x - p.x) - w.rect.min.x,
                                    MinX(w.config.limits), MaxX(w.config.limits))
      && Dy(w'.rect) == ClampLength(Dy(w.rect), MinY(w.config.limits), MaxY(w.config.limits))
    ensures w.resizing && p != w.startingPoint && w.resizingHeight && !w.resizingWidth ==>
      && Dy(w'.rect) == ClampLength(w.originalSize.y - (w.startingPoint.y - p.y) - w.rect.min.y,
                                    MinY(w.config.limits), MaxY(w.config.limits))
      && Dx(w'.rect) == ClampLength(Dx(w.rect), MinX(w.config.limits), MaxX(w.config.limits))
    ensures !w.resizingWidth && !w.resizingHeight ==> w' == w
  {
    if w.resizing && w.startingPoint != p then
      var a := if w.resizingWidth
               then SetLocation(w, w.rect.(max := w.rect.max.(x := w.originalSize.x - (w.startingPoint.x - p.x))))
               else w;
      if w.resizingHeight
      then SetLocation(a, a.rect.(max := a.rect.max.(y := a.originalSize.y - (a.startingPoint.y - p.y))))
      else a
    else w
  }

  /** `lo <= v < hi` on whichever order the two bounds come in: the span
      `image.Rect` makes of them. */
  predicate Between(v: int, a: int, b: int) {
    (a <= v < b) || (b <= v < a)
  }

  /** The cursor is over the 6-unit zone along the right edge. */
  predicate InRightZone(r: Rectangle, p: Point) {
    r.max.x - EdgeZone <= p.x < r.max.x && Between(p.y, r.min.y, r.max.y)
  }

  /** The cursor is over the 6-unit zone along the bottom edge. */
  predicate InBottomZone(r: Rectangle, p: Point) {
    Between(p.x, r.min.x, r.max.x) && r.max.y - EdgeZone <= p.y < r.max.y
  }

  /** The Go zone test, a cursor cell overlapping the canonicalised
      right-edge strip, is exactly `InRightZone`. */
  lemma RightZoneOverlap(r: Rectangle, p: Point)
    ensures Overlaps(CursorCell(p), Rect(r.max.x - EdgeZone, r.min.y, r.max.x, r.max.y))
            <==> InRightZone(r, p)
  {
    CursorOverlapsIffIn(p, Rect(r.max.x - EdgeZone, r.min.y, r.max.x, r.max.y));
  }

  /** Likewise for the bottom-edge strip and `InBottomZone`. */
  lemma BottomZoneOverlap(r: Rectangle, p: Point)
    ensures Overlaps(CursorCell(p), Rect(r.min.x, r.max.y - EdgeZone, r.max.x, r.max.y))
            <==> InBottomZone(r, p)
  {
    CursorOverlapsIffIn(p, Rect(r.min.x, r.max.y - EdgeZone, r.max.x, r.max.y));
  }

  /** The hover part of a frame, run only for a resizeable window: the
      right-edge zone wins over the bottom-edge zone, and neither is chosen
      when the window's input layer is not active for the cursor. */
  function HoverStep(w: Window, p: Point, layerActive: bool): (w': Window)
    ensures !w.config.resizeable ==> w' == w
    ensures w.config.resizeable ==>
      && (w'.resizingWidth <==> layerActive && InRightZone(w.rect, p))
      && (w'.resizingHeight <==> layerActive && !InRightZone(w.rect, p) && InBottomZone(w.rect, p))
    ensures w.config.resizeable ==> !(w'.resizingWidth && w'.resizingHeight)
    ensures w.config.resizeable && !layerActive ==> !w'.resizingWidth && !w'.resizingHeight
    ensures w' == w.(resizingWidth := w'.resizingWidth, resizingHeight := w'.resizingHeight)
  {
    if !w.config.resizeable then w
    else if layerActive then
      var r := w.rect;
      var xRect := Rect(r.max.x - EdgeZone, r.min.y, r.max.x, r.max.y);
      var yRect := Rect(r.min.x, r.max.y - EdgeZone, r.max.x, r.max.y);
      var cursor := CursorCell(p);
      RightZoneOverlap(r, p);
      BottomZoneOverlap(r, p);
      if Overlaps(cursor, xRect) then w.(resizingWidth := true, resizingHeight := false)
      else if Overlaps(cursor, yRect) then w.(resizingWidth := false, resizingHeight := true)
      else w.(resizingWidth := false, resizingHeight := false)
    else w.(resizingWidth := false, resizingHeight := false)
  }

  /** One call of `Render` with the cursor at `p`: drag, then resize, then
      hover, in that order. A frame never fires an event. */
  function Frame(w: Window, p: Point, layerActive: bool): (s: Step)
    ensures s.effects == []
    ensures s.window.config == w.config && s.window.closeFunc == w.closeFunc
    ensures s.window.dragging == w.dragging && s.window.resizing == w.resizing
    ensures s.window.originalSize == w.originalSize
    ensures Inv(w) ==> Inv(s.window)
    ensures !w.dragging && !w.resizing ==> s.window.rect == w.rect
    ensures w.dragging ==> s.window.startingPoint == p
    ensures w.dragging ==>
      Minus(s.window.rect.min, s.window.startingPoint) == Minus(w.rect.min, w.startingPoint)
    ensures w.dragging && WithinLimits(w.config.limits, w.rect) ==>
      s.window.rect == Add(w.rect, Minus(p, w.startingPoint))
    ensures w.dragging ==> ResizeStep(DragStep(w, p), p) == DragStep(w, p)
  {
    Step(HoverStep(ResizeStep(DragStep(w, p), p), p, layerActive), [])
  }
}
