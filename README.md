# carousel-js controller, modelled in Dafny

This project models the `Carousel` controller of carousel-js (`src/carousel.ts`): a
draggable carousel bound to a container element whose track holds one child per slide.
The controller keeps a bounded slide index (`next()` wraps to the first slide, `previous()`
stops at the first), marks the current child `active`, sizes every child to the
container's width and moves the track with a `translateX` transform, turns a
mouse/touch drag into a clamped live offset and, on release, into a `previous()` or
`next()`, and keeps at most one autoplay interval timer armed.

Files:

- `slides.dfy` (module `Slides`): `maxSlides`, the index moves of `next()`/`previous()`,
  the offset that shows a slide, and lemmas about repeated moves.
- `track.dfy` (module `Track`): the track's children (active marker, width,
  `display: block`) and the specifications of the two loops over them.
- `drag.dfy` (module `Drag`): the pointer-down guard and capture, the drag clamp, the
  release direction.
- `carousel.dfy` (module `Carousel`): the `Carousel` class. Its fields stand for the
  private fields and for the DOM state the controller writes. Its methods update them in
  place, and `Valid()` is the invariant they keep: the index is in `[0, maxSlides]`, exactly
  the current child is active, every child has the slide width, the track width is
  `count × width`, an open drag session has a non-negative bound, and every live timer is the one
  `#interval` refers to.

Pixel quantities are integers. The browser's timers are a map from handle to period.
`setInterval` hands out handles from a counter, and `clearInterval` removes the handle's entry.

## Model

| member | source | states |
|---|---|---|
| Slides.MaxSlides | src/carousel.ts:32-34 | the maximum index is child count − 1, and 0 for an empty track (a count of 0 falls back to 1 before subtracting) |
| Slides.NextIndex | src/carousel.ts:176-177 | `next` from a valid index stays valid; from the maximum (or beyond) it wraps to 0, otherwise it is old + 1 |
| Slides.PreviousIndex | src/carousel.ts:186-187 | `previous` gives old − 1, never below 0; at 0 (or 1) it gives 0; it never increases a non-negative index |
| Slides.MovesAreInverse | src/carousel.ts:174-192 | away from the boundaries `previous` undoes `next` and `next` undoes `previous` |
| Slides.NextNIsModular | src/carousel.ts:174-182 | n calls of `next` from a valid index land on `(slide + n) mod (maxSlides + 1)` |
| Slides.FullCycle | src/carousel.ts:174-182 | `maxSlides + 1` calls of `next` return to the starting slide |
| Slides.PreviousNClamps | src/carousel.ts:184-192 | n calls of `previous` land on `max(slide − n, 0)` |
| Track.ActiveCountOne | src/carousel.ts:167-172 | "only the child at k is active" holds iff exactly one child is active and it is the one at k |
| Track.MarkActiveSelectsOne | src/carousel.ts:167-172 | after the marker update exactly one child is active, the one at the current index, and widths and display styles are unchanged |
| Track.MarkActiveForgetsOldMarkers | src/carousel.ts:167-172 | the result does not depend on which children were active before, and re-marking is idempotent |
| Track.SizedTotal | src/carousel.ts:63-76 | children all `w` wide add up to `count × w` |
| Track.ResizedFits | src/carousel.ts:63-76 | after the layout every child is `w` wide and displayed, the widths sum to the track width `count × w`, and the active markers are untouched |
| Track.ResizeCommutesWithMark | src/carousel.ts:63-76 | the layout and the marker update touch disjoint parts of a child, so their order does not matter |
| Drag.Begin | src/carousel.ts:101-113 | no session exactly for a mouse press with a button other than 0; otherwise the session holds the press X, the current transform and track width − slide width |
| Drag.ClampDrag | src/carousel.ts:89-90 | the offset `eventX − startX + transformX` is cut to `[−listWidth, 0]`: always in range when `listWidth ≥ 0`, unchanged when already in range, 0 when past the right edge |
| Drag.ClampIsNearest | src/carousel.ts:89-90 | the clamped offset is the point of `[−listWidth, 0]` nearest to the raw offset |
| Drag.ClampMonotone | src/carousel.ts:89-90 | moving the pointer further right never moves the track further left |
| Drag.ClampIdempotent | src/carousel.ts:89-90 | an offset already clamped is a fixed point of the clamp |
| Drag.ReleaseDirection | src/carousel.ts:96-99 | `previous` iff the release X is strictly greater than the start X; `next` otherwise, a tap included |
| Drag.RestingOffsetInDragRange | src/carousel.ts:107-109 | on a laid-out track the captured bound is `maxSlides × width ≥ 0`, and every slide's resting offset lies in the drag range, so a press followed by a move at the press X leaves the track where it rests |
| Slides.SlideOffset | src/carousel.ts:180 | the offset `childSize × slide × −1` of a slide: 0 for the first slide, never positive for a valid slide and width, negative past the first slide |
| Carousel.EffectiveInterval | src/carousel.ts:55-61 | the period is the `interval` option when it is non-zero, else 5000 |
| Carousel.Carousel.constructor | src/carousel.ts:36-48 | construction lays the slides out, marks slide 0 active, leaves the track at offset 0 and arms one timer exactly when autoplay is on |
| Carousel.Carousel.AtMostOneTimer | src/carousel.ts:55-61 | in every valid state at most one timer is live, and none without autoplay |
| Carousel.Carousel.ClearInterval | src/carousel.ts:175 | the timer the kept handle refers to is stopped; nothing else |
| Carousel.Carousel.Autoplay | src/carousel.ts:55-61 | with autoplay on, one new timer at the effective period is added and its handle kept; with it off nothing changes |
| Carousel.Carousel.SetItemsWidth | src/carousel.ts:63-77 | slide width, track width `count × width`, the current slide's transform, and every child resized and displayed |
| Carousel.Carousel.OnResize | src/carousel.ts:79-81 | a resize keeps the invariant: index, marker and timers unchanged, layout redone for the new width |
| Carousel.Carousel.ChangeActiveItem | src/carousel.ts:167-172 | the children become `MarkActive` of the old children at the current index |
| Carousel.Carousel.AnimateTransform | src/carousel.ts:154-165 | the track transform becomes the given offset |
| Carousel.Carousel.Next | src/carousel.ts:174-182 | keeps the invariant; index becomes `NextIndex`, only that child is active, transform is its offset, and exactly one fresh timer is live (none without autoplay) |
| Carousel.Carousel.Previous | src/carousel.ts:184-192 | keeps the invariant; index becomes `PreviousIndex`, only that child is active, transform is its offset, and exactly one fresh timer is live (none without autoplay) |
| Carousel.Carousel.Tick | src/carousel.ts:58-60 | a live timer's tick performs `next()` and leaves exactly one timer live, newly armed |
| Carousel.Carousel.OnMouseDown | src/carousel.ts:101-113 | a non-primary mouse button leaves the session as it was; any other press starts the session `Begin` describes, whose bound is `maxSlides × width ≥ 0` |
| Carousel.Carousel.MouseMove | src/carousel.ts:83-94 | keeps the invariant; during a session the track transform becomes the clamped offset, always within `[−bound, 0]`; outside one nothing changes |
| Carousel.Carousel.MouseUp | src/carousel.ts:96-99 | ends the session and performs `previous()` or `next()` as `ReleaseDirection` says, keeping the invariant; with no session nothing changes |

## Left out

- DOM access is replaced by fields. This covers `querySelector`, `getBoundingClientRect`, style strings (`translateX(...)px`, `width: ...px`) and `classList`. The `addStyles` prototype extension and its `declare global` block (src/carousel.ts:3-21) are left out too.
- `getScrollTransformX` reads the computed transform, which is the interpolated value while a 0.2 s transition runs. The model reads the last transform written.
- The `transition` style and the 200 ms `setTimeout` that resets it (src/carousel.ts:154-165) change no modelled state.
- Event-listener registration and removal (src/carousel.ts:42-44, 128-143) is not modelled. A second pointer-down during a session adds a second set of listeners in the source, so one release runs every open session's `mouseUp` handler (src/carousel.ts:130-143) and calls `next()`/`previous()` once per open session. The model keeps a single session, which a new press replaces, and a release calls `next()`/`previous()` once.
- The distinction between mouse and touch move/up events is not modelled. It only selects where the X coordinate is read. The model takes that X directly.
- Real time is not modelled. `setInterval`/`clearInterval` become the timer map; a tick is an explicit call.
- Pixel values are integers, not floats. An `interval` of `NaN` is not modelled (only absent and 0 fall back to 5000).
- The track's child count is fixed at construction. The source re-reads it from the DOM on every call.
- `changeActiveItem` clears the marker on every `.active` descendant of the track. The model clears it on the direct children only.
- The `window.createCarousel` factory (src/carousel.ts:195-198), `vite.config.js`, and the unused `items`/`margin` options of `src/types.ts`.
- Carousel.Carousel.constructor: requires at least one child, because the source faults when it indexes the first child of an empty track. It also requires a non-negative container width, which is what `getBoundingClientRect` returns.
- Carousel.Carousel.OnMouseDown: the track width it reads is taken to be the track's inline width, `count × childSize`, so the bound (track width minus one slide width) is `maxSlides × childSize ≥ 0`. The source reads the rendered width with `getBoundingClientRect` (src/carousel.ts:108-109). That can differ from the inline width through padding or border under content-box sizing, stylesheet width limits or fractional layout, and the source's bound then differs from the model's.
