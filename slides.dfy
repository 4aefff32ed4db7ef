/**
 * The slide-index controller of the carousel: the bounded counter behind
 * `maxSlides`, `next()` and `previous()`, and the track offset that shows a
 * given slide. Everything here is a pure function of the child count and the
 * current index; the class in module Carousel applies these to its fields.
 */
module Slides {

  /** `maxSlides`: the last valid slide index. The track's child count is
      replaced by 1 when it is 0 (the `|| 1` fallback), so an empty track
      has maximum index 0 rather than -1. */
  function MaxSlides(childCount: nat): (m: nat)
    ensures childCount == 0 ==> m == 0
    ensures childCount > 0 ==> m + 1 == childCount
  {
    (if childCount == 0 then 1 else childCount) - 1
  }

  /** The index `next()` moves to: one further, or back to 0 once that
      passes the maximum. */
  function NextIndex(slide: int, max: nat): (r: int)
    ensures 0 <= slide <= max ==> 0 <= r <= max
    ensures slide >= max ==> r == 0
    ensures slide < max ==> r == slide + 1
  {
    var candidate := slide + 1;
    if candidate > max then 0 else candidate
  }

  /** The index `previous()` moves to: one back, stopping at 0 (no wrap). */
  function PreviousIndex(slide: int): (r: int)
    ensures r >= 0
    ensures slide <= 1 ==> r == 0
    ensures slide >= 1 ==> r == slide - 1
    ensures 0 <= slide ==> r <= slide
  {
    var candidate := slide - 1;
    if candidate < 0 then 0 else candidate
  }

  /** The horizontal track offset at which slide `slide` is in view when
      every slide is `childSize` pixels wide: `childSize * slide * -1`. */
  function SlideOffset(slide: int, childSize: int): (r: int)
    ensures slide == 0 ==> r == 0
    ensures childSize >= 0 && slide >= 0 ==> r <= 0
    ensures childSize > 0 && slide > 0 ==> r < 0
  {
    childSize * slide * -1
  }

  /** `next()` applied `n` times in a row. */
  function NextN(slide: int, max: nat, n: nat): int
  {
    if n == 0 then slide else NextIndex(NextN(slide, max, n - 1), max)
  }

  /** `previous()` applied `n` times in a row. */
  function PreviousN(slide: int, n: nat): int
  {
    if n == 0 then slide else PreviousIndex(PreviousN(slide, n - 1))
  }

  /** Away from the boundaries the two moves undo each other. */
  lemma MovesAreInverse(slide: int, max: nat)
    requires 0 <= slide <= max
    ensures slide < max ==> PreviousIndex(NextIndex(slide, max)) == slide
    ensures 0 < slide ==> NextIndex(PreviousIndex(slide), max) == slide
  {
  }

  /** One step of the cyclic counter agrees with the successor taken modulo
      the number of slides. */
  lemma NextIsSuccessorMod(x: nat, max: nat)
    ensures NextIndex(x % (max + 1), max) == (x + 1) % (max + 1)
  {
    var k := max + 1;
    var q, r := x / k, x % k;
    assert x == q * k + r;
    if r + 1 == k {
      assert x + 1 == (q + 1) * k;
      ModOfMultiple(q + 1, k);
    } else {
      assert x + 1 == q * k + (r + 1);
      ModOfRemainder(q, k, r + 1);
    }
  }

  lemma ModOfMultiple(q: nat, k: nat)
    requires k > 0
    ensures (q * k) % k == 0
  {
    ModOfRemainder(q, k, 0);
  }

  lemma ModOfRemainder(q: nat, k: nat, r: nat)
    requires r < k
    ensures (q * k + r) % k == r
  {
    var a := q * k + r;
    var q', r' := a / k, a % k;
    assert q' * k + r' == a;
    if q' < q {
      MulGap(q', q, k);
    } else if q' > q {
      MulGap(q, q', k);
    }
  }

  /** Multiples of `k` that differ lie at least `k` apart. */
  lemma MulGap(lo: int, hi: int, k: nat)
    requires lo < hi
    ensures hi * k - lo * k >= k
  {
    assert hi * k - lo * k == (hi - lo) * k;
    var d := hi - lo;
    assert d * k == (d - 1) * k + k;
    assert (d - 1) * k >= 0;
  }

  /** Repeated `next()` from a valid index walks the slides cyclically:
      after `n` steps the index is `(slide + n) mod (max + 1)`. */
  lemma {:induction false} NextNIsModular(slide: nat, max: nat, n: nat)
    requires slide <= max
    ensures NextN(slide, max, n) == (slide + n) % (max + 1)
  {
    if n == 0 {
      ModOfRemainder(0, max + 1, slide);
    } else {
      NextNIsModular(slide, max, n - 1);
      NextIsSuccessorMod(slide + n - 1, max);
    }
  }

  /** A full round of `max + 1` calls to `next()` returns to the start. */
  lemma FullCycle(slide: nat, max: nat)
    requires slide <= max
    ensures NextN(slide, max, max + 1) == slide
  {
    NextNIsModular(slide, max, max + 1);
    ModOfRemainder(1, max + 1, slide);
  }

  /** Repeated `previous()` counts down and then sticks at 0. */
  lemma {:induction false} PreviousNClamps(slide: int, n: nat)
    requires slide >= 0
    ensures PreviousN(slide, n) == if slide - n < 0 then 0 else slide - n
  {
    if n > 0 {
      PreviousNClamps(slide, n - 1);
    }
  }
}
