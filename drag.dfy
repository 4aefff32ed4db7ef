/**
 * The drag/swipe session of the carousel, reduced to its arithmetic: which
 * pointer-down starts a session and what it captures, the clamped offset a
 * pointer move writes to the track, and the slide move the release picks.
 */
module Drag {
  import opened Slides

  /** The pointer-down events the container listens to. A touch start has no
      button; its X is that of the first touch point. */
  datatype PointerDown = MouseDown(button: int, clientX: int) | TouchStart(clientX: int)

  /** Idle, or dragging with what the pointer-down captured: the pointer's
      start X, the track's transform X at that moment, and the track width
      minus one slide width (how far left the track may be pulled). */
  datatype DragState = Idle | Dragging(startX: int, startTransform: int, bound: int)

  /** The two moves a release can trigger. */
  datatype Direction = ToPrevious | ToNext

  /** The session a pointer-down opens (`onMouseDown`): none for a mouse
      button other than the primary one, otherwise one that captures the
      pointer X, the current transform and `trackRectWidth - childSize`. */
  function Begin(ev: PointerDown, transformX: int, trackRectWidth: int, childSize: int): (d: DragState)
    ensures d.Idle? <==> ev.MouseDown? && ev.button != 0
    ensures d.Dragging? ==>
      d.startX == ev.clientX && d.startTransform == transformX && d.bound == trackRectWidth - childSize
  {
    if ev.MouseDown? && ev.button != 0 then Idle
    else Dragging(ev.clientX, transformX, trackRectWidth - childSize)
  }

  /** The offset a pointer move at `eventX` writes to the track
      (`mouseMove`): the start transform shifted by the pointer's travel,
      cut to 0 on the right and to `-listWidth` on the left. */
  function ClampDrag(eventX: int, startX: int, transformX: int, listWidth: int): (left: int)
    ensures listWidth >= 0 ==> -listWidth <= left <= 0
    ensures -listWidth <= eventX - startX + transformX <= 0 ==> left == eventX - startX + transformX
    ensures eventX - startX + transformX > 0 ==> left == 0
    ensures eventX - startX + transformX <= 0 && eventX - startX + transformX < -listWidth ==> left == -listWidth
  {
    var left := eventX - startX + transformX;
    if left > 0 then 0 else if left < listWidth * -1 then listWidth * -1 else left
  }

  /** The slide move a release at `upX` triggers (`mouseUp`): `previous()`
      for a net movement to the right, `next()` for anything else, a tap
      with no movement included. */
  function ReleaseDirection(upX: int, startX: int): (d: Direction)
    ensures d == ToPrevious <==> upX > startX
    ensures d == ToNext <==> upX <= startX
  {
    if upX > startX then ToPrevious else ToNext
  }

  /** With a non-negative bound the clamped offset is the point of
      `[-listWidth, 0]` nearest to the unclamped one. */
  lemma ClampIsNearest(eventX: int, startX: int, transformX: int, listWidth: int, y: int)
    requires listWidth >= 0
    requires -listWidth <= y <= 0
    ensures var raw := eventX - startX + transformX;
      Dist(ClampDrag(eventX, startX, transformX, listWidth), raw) <= Dist(y, raw)
  {
  }

  function Dist(a: int, b: int): nat
  {
    if a < b then b - a else a - b
  }

  /** Dragging further right never moves the track further left. */
  lemma ClampMonotone(x1: int, x2: int, startX: int, transformX: int, listWidth: int)
    requires listWidth >= 0
    requires x1 <= x2
    ensures ClampDrag(x1, startX, transformX, listWidth) <= ClampDrag(x2, startX, transformX, listWidth)
  {
  }

  /** Clamping an offset that is already clamped changes nothing: feeding
      the written offset back as the start transform of a motionless move
      returns it. */
  lemma ClampIdempotent(eventX: int, startX: int, transformX: int, listWidth: int, x: int)
    requires listWidth >= 0
    ensures var left := ClampDrag(eventX, startX, transformX, listWidth);
      ClampDrag(x, x, left, listWidth) == left
  {
  }

  /** For a track of `count >= 1` slides of width `w >= 0` laid out by
      `setItemsWidth`, the bound a session captures is `maxSlides * w`, so it
      is never negative, and the resting offset of every valid slide lies in
      the drag range: a press followed by a move at the press X leaves the
      track where it rests. */
  lemma RestingOffsetInDragRange(count: nat, w: int, slide: int, x: int)
    requires count >= 1 && w >= 0
    requires 0 <= slide <= MaxSlides(count)
    ensures count * w - w == MaxSlides(count) * w >= 0
    ensures -(count * w - w) <= SlideOffset(slide, w) <= 0
    ensures ClampDrag(x, x, SlideOffset(slide, w), count * w - w) == SlideOffset(slide, w)
  {
  }
}
