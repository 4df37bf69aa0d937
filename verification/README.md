# Floating window geometry and gestures (ebitenui `widget/window.go`)

This project is a Dafny model of the floating-window widget of the ebitenui
toolkit. It covers the window's geometry and gesture logic:

- **The size clamp of `Window.SetLocation`.** It works on Go `image.Rectangle` values with an optional `MinSize` and `MaxSize`. The minimum is applied first and the maximum second, so the maximum wins when the two conflict. Only the `Max` corner moves.
- **The gesture state machine.** Its state is the flags `dragging`, `resizing`, `resizingWidth` and `resizingHeight`, together with `startingPoint` and `originalSize`. Three kinds of step drive it:
  - the press handlers of the title bar and the contents;
  - the matching release handlers;
  - the per-frame update in `Render`, which runs the drag, then the resize, then the hover-zone test.
- **Completion events.** `MoveEvent` and `ResizeEvent` fire on a release only when the gesture's flag was set.
- **Closing.** `Close`, `SetCloseFunction` and the close-on-click-outside release handler.

The window is an immutable record (`WindowModel.Window`). Each handler is a pure
function that returns the new state and the ordered list of effects it emitted
(`Moved`, `Resized`, `CloseCalled`).

Modelling assumptions:
- The cursor position returned by `input.CursorPosition()` is a parameter of each step.
- The answer of `inputLayer.ActiveFor` is a boolean input to `Frame`.
- The container's `Rect` is the last rectangle passed to `container.SetLocation`.
- Before any such call, `Rect` is Go's zero rectangle.
- `image.Rectangle` follows Go's definitions:
  - `Dx` and `Dy` may be negative;
  - `Add` translates both corners;
  - `image.Rect` canonicalises its corners;
  - `Overlaps` is a half-open test that is false for empty rectangles.
- The close callback is modelled by an identity number, and invoking it emits `CloseCalled(id)`.

Modules:
- `Optional` in `optional.dfy`: the `Option` type.
- `Geometry` in `geometry.dfy`: Go's rectangle semantics.
- `Constraints` in `constraints.dfy`: the size clamp.
- `WindowModel` in `window.dfy`: the window state and its steps.
- `Gestures` in `gestures.dfy`: input runs and the drag gesture.
- `Scenarios` in `scenarios.dfy`: concrete gesture traces.
- `ResizeReturn` in `findings.dfy`: the finding below.

Behaviours of the code worth knowing:
- **Location bypasses the clamp.** The `Location` option calls `container.SetLocation` directly (window.go:211). The clamp is bypassed, although the option's doc comment (window.go:207-208) says it accounts for MinSize and MaxSize. `NewWindow` models what the code does, and `Scenarios.LocationBypassesClamp` exhibits it.
- **Dragging and edge hover can coincide.** `dragging` and `resizingWidth` can hold together: the hover flags are updated on every frame independently of `dragging` (`Scenarios.DragWhileHoveringRightEdge`). Only `resizingWidth` and `resizingHeight` exclude each other (`WindowModel.Inv`).
- **A resize cannot act during a drag.** The drag part of a frame moves `startingPoint` to the cursor, so the resize part's guard (window.go:282) then finds the cursor on the sample and does nothing (`WindowModel.Frame`).
- **Widths can be negative.** Without a `MinSize`, a resize can move the right edge past the left one (`Scenarios.ResizeCanInvertRectangle`).
- **A resize press ignores the hover flags.** A press on the contents sets `resizing` whatever the hover flags are (window.go:105). `originalSize` holds the press-time `Rect.Max` corner, not a size.

## Model

| member | source | states |
|---|---|---|
| `Geometry.Rect` | widget/window.go:300-302 | `image.Rect` yields Min <= Max on both axes and keeps the same two coordinates per axis |
| `Geometry.CursorCell` | widget/window.go:302 | the one-unit cursor rectangle is non-empty and contains exactly the cursor point |
| `Geometry.CursorOverlapsIffIn` | widget/window.go:302-307 | a cursor cell overlaps a rectangle iff the cursor point lies in its half-open interior |
| `Geometry.Dx` | widget/window.go:226-236 | `Rectangle.Dx` is the signed width: negative exactly when `Max.X < Min.X`, and a rectangle whose width is not positive is empty |
| `Geometry.Dy` | widget/window.go:229-239 | `Rectangle.Dy` is the signed height: negative exactly when `Max.Y < Min.Y`, and a rectangle whose height is not positive is empty |
| `Geometry.EmptyIffNoPoint` | widget/window.go:303-307 | Go's `Rectangle.Empty` (`Min.X >= Max.X` or `Min.Y >= Max.Y`) holds iff no point lies in the half-open rectangle |
| `Geometry.OverlapsIffCommonPoint` | widget/window.go:303-307 | Go's `Rectangle.Overlaps` (both non-empty, intervals intersecting on both axes) holds iff some point lies in both half-open rectangles |
| `Geometry.Add` | widget/window.go:275 | translation moves both corners by the offset and preserves width and height |
| `Constraints.ClampLength` | widget/window.go:225-241 | a clamped length is at most a set maximum; it is at least a set minimum unless min > max, and then it equals max; a length already in range is unchanged; below min it becomes min and above max it becomes max |
| `Constraints.Clamp` | widget/window.go:224-243 | the clamp never moves `Min`; each axis' length is clamped independently of the other; with no limits the rectangle passes through unchanged |
| `Constraints.ClampEstablishesLimits` | widget/window.go:225-241 | with min <= max on each axis, the clamped rectangle satisfies every limit that is set |
| `Constraints.ClampKeepsRectWithinLimits` | widget/window.go:224-243 | a rectangle already within the limits is returned as-is |
| `Constraints.ClampIdempotent` | widget/window.go:224-243 | clamping an already clamped rectangle returns it unchanged, even with min > max |
| `Constraints.ClampTranslate` | widget/window.go:275-276 | clamping a translated rectangle is translating the clamped rectangle |
| `Constraints.ClampFixedPointIffWithinLimits` | widget/window.go:224-243 | with consistent limits, the clamp leaves a rectangle unchanged iff it satisfies the limits |
| `WindowModel.Children` | widget/window.go:65-97 | the layout's children are exactly `[TitleBar, Contents]` with a title bar and exactly `[Contents]` without: two children or one, contents last, the title bar first when present |
| `WindowModel.NewWindow` | widget/window.go:54-129 | a new window has every gesture flag false and no close callback, and satisfies the invariant; its rectangle is the last `Location` rectangle, unclamped, or the zero rectangle |
| `WindowModel.SetLocation` | widget/window.go:224-244 | the window's rectangle keeps the proposed origin and gets the clamped size; with consistent limits it satisfies them; nothing else in the window changes |
| `WindowModel.Close` | widget/window.go:216-220 | invokes the close callback exactly once when it is set, and is a no-op otherwise |
| `WindowModel.SetCloseFunction` | widget/window.go:247-249 | installs the close callback and changes nothing else |
| `WindowModel.SetCloseFunctionThenClose` | widget/window.go:216-249 | after `SetCloseFunction(f)`, `Close` invokes exactly `f` once, or nothing when `f` is nil; the last installed callback wins; nothing else in the window changes |
| `WindowModel.Press` | widget/window.go:72-106 | a press emits nothing and never changes the rectangle. A title-bar press starts a drag, sampling the cursor, only with a title bar and `Draggable`. A contents press starts a resize whatever the hover flags, sampling the cursor and the current `Max` corner, only when `Resizeable`. A press no installed handler hears (on the container, on a title bar without `Draggable` or without a title bar, on contents that are not resizeable) leaves the window unchanged, so it cannot cancel a gesture in progress. The invariant is preserved |
| `WindowModel.Release` | widget/window.go:78-124 | a title-bar or contents release fires exactly one move or resize event carrying the current rectangle iff its flag was set and its handler is installed, and then clears the flag. A container release with close-on-click calls `Close` iff `!Inside`. The rectangle is unchanged |
| `WindowModel.DragStep` | widget/window.go:273-280 | while dragging, the sample becomes the cursor and the origin keeps its offset from the sample. On a frame where the cursor moved, the translated rectangle passes through `SetLocation`, so each axis' length becomes the clamp of the previous length: a window outside its limits snaps to them. A window within its limits is translated by exactly the cursor's displacement. Without dragging, or with an unmoved cursor, nothing changes |
| `WindowModel.ResizeStep` | widget/window.go:281-297 | on the axis the hover flags select, the new length is the clamp of press-time edge − (press sample − cursor) − origin; the other axis is re-clamped unchanged; the origin and the sample are untouched; with the cursor on the sample nothing changes |
| `WindowModel.RightZoneOverlap` | widget/window.go:300-303 | Go's overlap test against the right-edge strip holds iff `Max.X−6 <= x < Max.X` and y lies between the rectangle's vertical bounds |
| `WindowModel.BottomZoneOverlap` | widget/window.go:301-307 | Go's overlap test against the bottom strip holds iff x lies between the horizontal bounds and `Max.Y−6 <= y < Max.Y` |
| `WindowModel.HoverStep` | widget/window.go:298-321 | for a resizeable window, width is chosen iff the layer is active and the cursor is in the right zone. Height is chosen iff the layer is active and the cursor is in the bottom zone but not the right one. So the two are never both set, and both are false when the layer is inactive. A window that is not resizeable is unchanged |
| `WindowModel.Frame` | widget/window.go:270-323 | a frame fires no event, keeps the gesture flags and `originalSize`, and preserves the invariant. While dragging, the sample becomes the cursor and the origin's offset from it is kept; a window within its limits is translated by exactly the cursor's displacement; and the resize part cannot act, because the drag has already moved the sample onto the cursor |
| `Gestures.Apply` | widget/window.go:72-124 | any single input preserves the invariant and the configuration; a render input emits nothing |
| `Gestures.Run` | widget/window.go:65-116 | any sequence of inputs preserves the invariant and the configuration |
| `Gestures.ReachableWindowsKeepInv` | widget/window.go:65-116 | from construction, dragging implies a title bar and `Draggable`, resizing implies `Resizeable`, and the two hover flags are never both set |
| `Gestures.FramesEmitNothing` | widget/window.go:270-323 | any number of frames fire no events and leave `dragging`/`resizing` as they were |
| `Gestures.DragFramesTrackPointer` | widget/window.go:273-280 | over any run of drag frames the origin moves by exactly the cursor's displacement since the drag's sample, and the sample ends at the last cursor position; a window within its limits is translated as a whole |
| `Gestures.DragGesture` | widget/window.go:72-86 | press on the title bar, frames, release: exactly one move event, carrying the final rectangle, whose origin moved by the cursor's displacement since the press; for a window within its limits that rectangle is the original translated by that displacement; the drag is over afterwards |
| `Gestures.DragByTenAndTen` | widget/window.go:72-86 | press (10,10), frames (15,12) and (20,20), release: one move event with the rectangle translated by (10,10) |
| `Gestures.SecondReleaseFiresNothing` | widget/window.go:78-115 | a release right after a release fires nothing |
| `Gestures.ReleaseFiresIffGestureActive` | widget/window.go:78-115 | a release fires at most one event, and one iff the matching gesture flag was set and its handler installed |
| `Gestures.CloseOnClickOutside` | widget/window.go:118-124 | with close-on-click, a container release calls the close callback iff `!Inside` and a callback is set, exactly as `Close` would |
| `Gestures.SetCloseThenClickOutside` | widget/window.go:118-124 | with close-on-click, installing callback `f` and then releasing outside invokes exactly `f` once; a nil callback or a release inside invokes nothing |
| `Scenarios.ResizeableWindow` | widget/window.go:99-116 | a window without title bar, built with `Resizeable` and without close-on-click, satisfies the invariant and installs only the resize handlers |
| `Scenarios.ResizeWidthClampedToMax` | widget/window.go:281-296 | with limits 100x50 to 400x300, a width resize dragged far right ends, and reports, at width exactly 400 |
| `Scenarios.ResizeWidthClampedToMin` | widget/window.go:281-296 | the same resize dragged far left ends, and reports, at width exactly 100 |
| `Scenarios.LocationBypassesClamp` | widget/window.go:207-212 | a `Location` rectangle wider than `MaxSize` is kept as it is at construction, while `SetLocation` would clamp it |
| `Scenarios.DragWhileHoveringRightEdge` | widget/window.go:298-306 | `dragging` and `resizingWidth` can hold together after a title-bar press near the right edge |
| `Scenarios.ResizeCanInvertRectangle` | widget/window.go:281-288 | without `MinSize`, a width resize can make the width negative |
| `ResizeReturn.StaleSizeAfterReturn` | widget/window.go:282-288 | as written, moving the cursor back onto the press-time sample leaves the previous frame's edge (110) instead of the press-time edge (100) |
| `ResizeReturn.ResizeStepIntended` | widget/window.go:281-296 | the unguarded resize step computes the length on the selected axis from the press-time sample on every frame, and never moves the origin |
| `ResizeReturn.IntendedResizeReturnsToPressEdge` | widget/window.go:281-288 | with the unguarded step, a cursor back on the sample restores the press-time right edge whenever its width is within the limits |
| `ResizeReturn.IntendedResizeForgetsCurrentEdge` | widget/window.go:281-288 | the unguarded step does not depend on the edge that previous frames left |
| `ResizeReturn.FrameIntended` | widget/window.go:270-323 | a frame using the unguarded resize step fires nothing and preserves the invariant |
| `ResizeReturn.FrameIntendedDiffersOnlyOnSample` | widget/window.go:282 | the corrected frame differs from the as-written one only while resizing with the cursor on the sample |

## Left out

- Later writes to the exported fields `TitleBar`, `Draggable`, `Resizeable`, `MinSize` and `MaxSize` (window.go:26-30) are not modelled: `Config` freezes them at construction. In Go the press and release handlers are installed once, from the construction-time values (window.go:65-116). `Render` re-reads `Resizeable` (window.go:298) and `SetLocation` re-reads `MinSize`/`MaxSize` (window.go:225, 234) on every call. So `WindowModel.Inv` (`resizing` implies `Resizeable`) and `Gestures.ReachableWindowsKeepInv` hold only under this freeze: if a caller clears `Resizeable` after construction, the contents press handler (window.go:100-105) still sets `resizing`.
- Drawing and cursor shape: `container.Render`, `ebiten.SetCursorShape` and the `ebiten.Image` surface are visual output only.
- The grid layout engine and `Container` internals (`NewGridLayout`, `AddChild`, `RequestRelayout`, the title bar's `LayoutData`/`MinHeight` from `titleBarHeight`): foreign code; only the child order is modelled (`WindowModel.Children`).
- `SetupInputLayer` and the input-layer system, including the `Modal` full-screen flag: the hit test lives in the input package, so `ActiveFor` is a boolean input to `Frame`.
- `input.CursorPosition`: a parameter of each step.
- `event.Event`, `MultiOnce` and the handler wrappers of `MoveHandler`/`ResizeHandler`: events are an ordered output list, and the deferred `Location` actions are folded into `NewWindow`. The window reference in `WindowChangedEventArgs` is omitted.
- The runtime type assertions on event arguments: each handler receives its typed argument directly.
- A nil `Contents` (Go would dereference nil): the content container is always present.
- Which handlers one physical mouse release reaches, and in what order: the widget system decides this, so each handler is a separate `Release` step.
- Go's 64-bit `int` wrap-around: coordinates are unbounded integers; screen coordinates stay far below 2^63.
- Concurrency and re-entrant removal by the owning manager: none of it is in this file.

## Findings

| source | as written | input that shows it | evidently intended | confidence | as-written member | corrected member |
|---|---|---|---|---|---|---|
| widget/window.go:282 | the resize update is skipped whenever the cursor equals the press-time sample, but the new edge is computed from that sample | 100-wide window; hover and press at (97,50); frames at (107,50) then (97,50): the width stays 110 | the edge follows the cursor on every frame, so returning to (97,50) restores width 100 | medium, not executed | `ResizeReturn.StaleSizeAfterReturn` | `ResizeReturn.ResizeStepIntended` |

`WindowModel.Frame` keeps the guard, so it models the code as written. `ResizeReturn.FrameIntended` is the same frame with the corrected step, and `ResizeReturn.FrameIntendedDiffersOnlyOnSample` proves that the two frames differ only in that case.
