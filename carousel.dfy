/**
 * The `Carousel` controller: the object that owns the slide index, the
 * slide width, the track's width and transform, the drag session and the
 * autoplay timer, and the operations that update them in place.
 *
 * The DOM is replaced by fields: the track's children are an array of
 * `SlideElement`s, the track's inline `width` and `transform` are two
 * integers, and the browser's interval timers are a map from timer handle
 * to period, together with the `#interval` handle the controller keeps.
 */
module Carousel {
  import opened Slides
  import opened Track
  import opened Drag

  datatype Option<T> = None | Some(value: T)

  /** The options the controller reads; an absent option object behaves as
      `Options(false, None)`. `items` and `margin` have no effect. */
  datatype Options = Options(autoplay: bool, interval: Option<int>)

  /** The autoplay period used when no non-zero `interval` is given. */
  const DefaultInterval := 5000

  /** `interval || 5000`: an absent or zero interval means the default. */
  function EffectiveInterval(interval: Option<int>): (ms: int)
    ensures ms != 0
    ensures interval.Some? && interval.value != 0 ==> ms == interval.value
    ensures interval.None? || interval.value == 0 ==> ms == DefaultInterval
  {
    match interval
    case Some(v) => if v != 0 then v else DefaultInterval
    case None => DefaultInterval
  }

  class Carousel {
    const options: Options
    /** The children of the track element, in order. */
    const children: array<SlideElement>
    /** `#slide`: the current slide index. */
    var slide: int
    /** `#childSize`: the width of one slide, the container's width. */
    var childSize: int
    /** The track's inline width. */
    var trackWidth: int
    /** The X of the track's inline `translateX` transform. */
    var trackTransform: int
    /** The pointer session in progress, if any. */
    var drag: DragState
    /** The interval timers that are live: handle to period in ms. */
    var timers: map<nat, int>
    /** `#interval`: the handle of the last timer armed, if any. */
    var intervalHandle: Option<nat>
    /** The handle the next `setInterval` returns. */
    var nextHandle: nat

    /** Every live timer is the one `#interval` refers to, it runs at the
        effective interval, and no timer is live without autoplay. */
    ghost predicate TimersValid()
      reads this
    {
      && (forall h :: h in timers ==>
            h < nextHandle && intervalHandle == Some(h) && timers[h] == EffectiveInterval(options.interval))
      && (!options.autoplay ==> timers == map[])
    }

    /** The controller's invariant between events. */
    ghost predicate Valid()
      reads this, children
    {
      && children.Length >= 1
      && 0 <= slide <= MaxSlides(children.Length)
      && childSize >= 0
      && ActiveOnlyAt(children[..], slide)
      && AllSized(children[..], childSize)
      && trackWidth == children.Length * childSize
      && (drag.Dragging? ==> drag.bound >= 0)
      && TimersValid()
    }

    /** Construction lays the slides out at the container's width, marks
        slide 0 active and starts autoplay. An empty track is excluded: the
        source faults indexing its first child. */
    constructor (containerWidth: int, items: seq<SlideElement>, options: Options)
      requires |items| >= 1
      requires containerWidth >= 0
      ensures Valid() && fresh(children)
      ensures this.options == options
      ensures slide == 0 && childSize == containerWidth && trackTransform == 0 && drag == Idle
      ensures children[..] == MarkActive(Resized(items, containerWidth), 0)
      ensures timers == if options.autoplay then map[1 := EffectiveInterval(options.interval)] else map[]
      ensures intervalHandle == (if options.autoplay then Some(1) else None)
      ensures nextHandle == (if options.autoplay then 2 else 1)
    {
      this.options := options;
      children := new SlideElement[|items|](i requires 0 <= i < |items| => items[i]);
      slide := 0;
      childSize := 0;
      trackWidth := 0;
      trackTransform := 0;
      drag := Idle;
      timers := map[];
      intervalHandle := None;
      nextHandle := 1;
      new;
      assert children[..] == items;
      SetItemsWidth(containerWidth);
      ChangeActiveItem();
      ResizedFits(items, containerWidth);
      MarkActiveSelectsOne(Resized(items, containerWidth), 0);
      Autoplay();
    }

    /** At most one autoplay timer is ever live. */
    lemma AtMostOneTimer()
      requires Valid()
      ensures |timers| <= 1
      ensures !options.autoplay ==> |timers| == 0
    {
      if h :| h in timers {
        assert timers.Keys == {h};
      }
    }

    /** `clearInterval(this.#interval)`: stops the timer the handle refers
        to; the handle itself is kept. */
    method ClearInterval()
      modifies this`timers
      ensures timers == if intervalHandle.Some? then old(timers) - {intervalHandle.value} else old(timers)
    {
      if intervalHandle.Some? {
        timers := timers - {intervalHandle.value};
      }
    }

    /** `autoplay`: with the option on, arms a new interval timer and keeps
        its handle; otherwise does nothing. It does not clear the previous
        timer itself. */
    method Autoplay()
      modifies this`timers, this`intervalHandle, this`nextHandle
      ensures !options.autoplay ==>
        timers == old(timers) && intervalHandle == old(intervalHandle) && nextHandle == old(nextHandle)
      ensures options.autoplay ==>
        && timers == old(timers)[old(nextHandle) := EffectiveInterval(options.interval)]
        && intervalHandle == Some(old(nextHandle))
        && nextHandle == old(nextHandle) + 1
    {
      if !options.autoplay {
        return;
      }
      var h := nextHandle;
      nextHandle := nextHandle + 1;
      timers := timers[h := EffectiveInterval(options.interval)];
      intervalHandle := Some(h);
    }

    /** `setItemsWidth`: every slide gets the container's width and
        `display: block`, the track gets their total width and the transform
        of the current slide. */
    method SetItemsWidth(containerWidth: int)
      modifies this`childSize, this`trackWidth, this`trackTransform, children
      ensures childSize == containerWidth
      ensures trackWidth == children.Length * containerWidth
      ensures trackTransform == SlideOffset(slide, containerWidth)
      ensures children[..] == Resized(old(children[..]), containerWidth)
    {
      childSize := containerWidth;
      trackWidth := children.Length * containerWidth;
      trackTransform := SlideOffset(slide, containerWidth);
      var i := 0;
      while i < children.Length
        invariant 0 <= i <= children.Length
        invariant childSize == containerWidth && trackWidth == children.Length * containerWidth
        invariant trackTransform == SlideOffset(slide, containerWidth)
        invariant forall j :: 0 <= j < i ==>
          children[j] == old(children[j]).(width := containerWidth, displayBlock := true)
        invariant forall j :: i <= j < children.Length ==> children[j] == old(children[j])
      {
        children[i] := children[i].(width := containerWidth, displayBlock := true);
        i := i + 1;
      }
    }

    /** `onResize`: re-lays out the track for a new container width; the
        slide index, the active marker and the timers stay as they were. */
    method OnResize(containerWidth: int)
      requires Valid()
      requires containerWidth >= 0
      modifies this`childSize, this`trackWidth, this`trackTransform, children
      ensures Valid()
      ensures childSize == containerWidth && trackTransform == SlideOffset(slide, containerWidth)
      ensures children[..] == Resized(old(children[..]), containerWidth)
    {
      ghost var before := children[..];
      SetItemsWidth(containerWidth);
      ResizedFits(before, containerWidth);
    }

    /** `changeActiveItem`: removes the active marker from every child and
        puts it on the child at the current index. */
    method ChangeActiveItem()
      requires 0 <= slide < children.Length
      modifies children
      ensures children[..] == MarkActive(old(children[..]), slide)
    {
      var i := 0;
      while i < children.Length
        invariant 0 <= i <= children.Length
        invariant forall j :: 0 <= j < i ==> children[j] == old(children[j]).(active := false)
        invariant forall j :: i <= j < children.Length ==> children[j] == old(children[j])
      {
        children[i] := children[i].(active := false);
        i := i + 1;
      }
      children[slide] := children[slide].(active := true);
    }

    /** `animateTransform`: writes the track's transform (the 0.2 s
        transition it also switches on has no effect on the state here). */
    method AnimateTransform(transform: int)
      modifies this`trackTransform
      ensures trackTransform == transform
    {
      trackTransform := transform;
    }

    /** `next()`: clears the autoplay timer, advances the index with wrap to
        0, moves the marker and the track, and re-arms autoplay. */
    method Next()
      requires Valid()
      modifies this`slide, this`trackTransform, this`timers, this`intervalHandle, this`nextHandle, children
      ensures Valid()
      ensures slide == NextIndex(old(slide), MaxSlides(children.Length))
      ensures children[..] == MarkActive(old(children[..]), slide)
      ensures trackTransform == SlideOffset(slide, childSize)
      ensures timers == if options.autoplay then map[old(nextHandle) := EffectiveInterval(options.interval)] else map[]
      ensures options.autoplay ==> intervalHandle == Some(old(nextHandle)) && nextHandle == old(nextHandle) + 1
      ensures !options.autoplay ==> intervalHandle == old(intervalHandle) && nextHandle == old(nextHandle)
    {
      ClearInterval();
      assert timers == map[];
      var s := slide + 1;
      if s > MaxSlides(children.Length) {
        s := 0;
      }
      slide := s;
      ghost var before := children[..];
      ChangeActiveItem();
      MarkActiveSelectsOne(before, slide);
      AnimateTransform(SlideOffset(s, childSize));
      Autoplay();
    }

    /** `previous()`: clears the autoplay timer, steps the index back with a
        stop at 0, moves the marker and the track, and re-arms autoplay. */
    method Previous()
      requires Valid()
      modifies this`slide, this`trackTransform, this`timers, this`intervalHandle, this`nextHandle, children
      ensures Valid()
      ensures slide == PreviousIndex(old(slide))
      ensures children[..] == MarkActive(old(children[..]), slide)
      ensures trackTransform == SlideOffset(slide, childSize)
      ensures timers == if options.autoplay then map[old(nextHandle) := EffectiveInterval(options.interval)] else map[]
      ensures options.autoplay ==> intervalHandle == Some(old(nextHandle)) && nextHandle == old(nextHandle) + 1
      ensures !options.autoplay ==> intervalHandle == old(intervalHandle) && nextHandle == old(nextHandle)
    {
      ClearInterval();
      assert timers == map[];
      var s := slide - 1;
      if s < 0 {
        s := 0;
      }
      slide := s;
      ghost var before := children[..];
      ChangeActiveItem();
      MarkActiveSelectsOne(before, slide);
      AnimateTransform(SlideOffset(s, childSize));
      Autoplay();
    }

    /** A tick of a live autoplay timer calls `next()`. */
    method Tick(handle: nat)
      requires Valid()
      requires handle in timers
      modifies this`slide, this`trackTransform, this`timers, this`intervalHandle, this`nextHandle, children
      ensures Valid()
      ensures slide == NextIndex(old(slide), MaxSlides(children.Length))
      ensures children[..] == MarkActive(old(children[..]), slide)
      ensures trackTransform == SlideOffset(slide, childSize)
      ensures timers == map[old(nextHandle) := EffectiveInterval(options.interval)]
      ensures intervalHandle == Some(old(nextHandle)) && nextHandle == old(nextHandle) + 1
    {
      Next();
    }

    /** `onMouseDown`: a non-primary mouse button is ignored; any other
        press opens a session from the current transform, whose bound is
        the track width less one slide, `maxSlides * childSize`. */
    method OnMouseDown(ev: PointerDown)
      requires Valid()
      modifies this`drag
      ensures Valid()
      ensures Begin(ev, trackTransform, trackWidth, childSize).Idle? ==> drag == old(drag)
      ensures Begin(ev, trackTransform, trackWidth, childSize).Dragging? ==>
        drag == Begin(ev, trackTransform, trackWidth, childSize)
      ensures drag != old(drag) ==> drag.bound == MaxSlides(children.Length) * childSize >= 0
    {
      var session := Begin(ev, trackTransform, trackWidth, childSize);
      if session.Dragging? {
        drag := session;
        RestingOffsetInDragRange(children.Length, childSize, slide, ev.clientX);
      }
    }

    /** A pointer move during a session writes the clamped offset as the
        track's transform; outside a session no listener runs. */
    method MouseMove(eventX: int)
      requires Valid()
      modifies this`trackTransform
      ensures Valid()
      ensures drag.Idle? ==> trackTransform == old(trackTransform)
      ensures drag.Dragging? ==>
        trackTransform == ClampDrag(eventX, drag.startX, drag.startTransform, drag.bound)
      ensures drag.Dragging? ==> -drag.bound <= trackTransform <= 0
    {
      if drag.Dragging? {
        trackTransform := ClampDrag(eventX, drag.startX, drag.startTransform, drag.bound);
      }
    }

    /** A release ends the session and calls `previous()` for a net move to
        the right, `next()` otherwise; outside a session nothing happens. */
    method MouseUp(upX: int)
      requires Valid()
      modifies this`drag, this`slide, this`trackTransform, this`timers, this`intervalHandle, this`nextHandle, children
      ensures Valid()
      ensures drag == Idle
      ensures old(drag).Idle? ==> slide == old(slide) && trackTransform == old(trackTransform) && timers == old(timers)
      ensures old(drag).Idle? ==> children[..] == old(children[..])
      ensures old(drag).Dragging? ==>
        slide == match ReleaseDirection(upX, old(drag).startX)
                 case ToPrevious => PreviousIndex(old(slide))
                 case ToNext => NextIndex(old(slide), MaxSlides(children.Length))
      ensures old(drag).Dragging? ==> trackTransform == SlideOffset(slide, childSize)
      ensures old(drag).Dragging? ==> children[..] == MarkActive(old(children[..]), slide)
      ensures old(drag).Dragging? ==>
        timers == if options.autoplay then map[old(nextHandle) := EffectiveInterval(options.interval)] else map[]
      ensures old(drag).Idle? || !options.autoplay ==>
        intervalHandle == old(intervalHandle) && nextHandle == old(nextHandle)
    {
      if drag.Idle? {
        return;
      }
      var startX := drag.startX;
      drag := Idle;
      var direction := ReleaseDirection(upX, startX);
      if direction == ToPrevious {
        Previous();
      } else {
        Next();
      }
    }
  }

  /** A four-slide carousel without autoplay: three calls to `next()` reach
      the last slide, a fourth wraps to the first, and `previous()` there
      stays put with the marker still on slide 0. */
  method FourSlideWalk()
  {
    var blank := SlideElement(false, 0, false);
    var c := new Carousel(300, [blank, blank, blank, blank], Options(false, None));
    c.Next();
    c.Next();
    c.Next();
    assert c.slide == 3 && c.trackTransform == -900;
    c.Next();
    assert c.slide == 0;
    c.Previous();
    assert c.slide == 0 && c.trackTransform == 0 && c.children[0].active;
    assert c.timers == map[];
  }

  /** A two-slide carousel with autoplay: the timer armed at construction
      ticks once and is replaced by exactly one new timer; a press and a
      release at the same X then counts as `next()` and wraps to slide 0. */
  method TickThenTap()
  {
    var blank := SlideElement(false, 0, false);
    var c := new Carousel(300, [blank, blank], Options(true, None));
    assert c.timers == map[1 := 5000];
    c.Tick(1);
    assert c.slide == 1 && c.timers == map[2 := 5000];
    c.OnMouseDown(MouseDown(0, 100));
    assert c.drag == Dragging(100, -300, 300);
    c.MouseMove(100);
    assert c.trackTransform == -300;
    c.MouseUp(100);
    assert c.slide == 0 && c.trackTransform == 0 && c.timers == map[3 := 5000];
  }
}
