/**
 * The slide elements inside the track, reduced to the three things the
 * carousel writes on them: the `active` class, the inline `width` and the
 * inline `display: block`. The functions here are the specifications of the
 * two loops over the children (`changeActiveItem` and `setItemsWidth`).
 */
module Track {

  /** One child of the track as the carousel sees it. `displayBlock` records
      whether the inline `display: block` style has been applied. */
  datatype SlideElement = SlideElement(active: bool, width: int, displayBlock: bool)

  /** The child at `k` carries the active marker and no other child does. */
  ghost predicate ActiveOnlyAt(cs: seq<SlideElement>, k: int)
  {
    forall i :: 0 <= i < |cs| ==> (cs[i].active <==> i == k)
  }

  /** Every child is `w` pixels wide and displayed as a block. */
  ghost predicate AllSized(cs: seq<SlideElement>, w: int)
  {
    forall i :: 0 <= i < |cs| ==> cs[i].width == w && cs[i].displayBlock
  }

  /** The children after `changeActiveItem` with current slide `k`: the
      marker is removed everywhere and put on the child at `k`. */
  function MarkActive(cs: seq<SlideElement>, k: int): seq<SlideElement>
  {
    seq(|cs|, i requires 0 <= i < |cs| => cs[i].(active := i == k))
  }

  /** The children after `setItemsWidth` with container width `w`. */
  function Resized(cs: seq<SlideElement>, w: int): seq<SlideElement>
  {
    seq(|cs|, i requires 0 <= i < |cs| => cs[i].(width := w, displayBlock := true))
  }

  /** How many children carry the active marker. */
  function ActiveCount(cs: seq<SlideElement>): nat
  {
    if cs == [] then 0 else (if cs[0].active then 1 else 0) + ActiveCount(cs[1..])
  }

  /** The sum of the children's widths. */
  function TotalWidth(cs: seq<SlideElement>): int
  {
    if cs == [] then 0 else cs[0].width + TotalWidth(cs[1..])
  }

  /** No child is active exactly when the count is 0. */
  lemma {:induction false} NoneActive(cs: seq<SlideElement>)
    ensures ActiveCount(cs) == 0 <==> forall i :: 0 <= i < |cs| ==> !cs[i].active
  {
    if cs != [] {
      NoneActive(cs[1..]);
      assert forall i :: 1 <= i < |cs| ==> cs[i] == cs[1..][i - 1];
    }
  }

  /** "Exactly one active child, and it is the one at `k`" is the same as
      "one active child in all, and the one at `k` is active". */
  lemma {:induction false} ActiveCountOne(cs: seq<SlideElement>, k: int)
    requires 0 <= k < |cs|
    ensures ActiveOnlyAt(cs, k) <==> ActiveCount(cs) == 1 && cs[k].active
  {
    var tail := cs[1..];
    assert forall i :: 1 <= i < |cs| ==> cs[i] == tail[i - 1];
    if k == 0 {
      NoneActive(tail);
    } else {
      ActiveCountOne(tail, k - 1);
      if ActiveOnlyAt(cs, k) {
        assert ActiveOnlyAt(tail, k - 1);
      }
      if ActiveCount(cs) == 1 && cs[k].active {
        assert tail[k - 1].active;
        if cs[0].active {
          assert ActiveCount(tail) == 0;
          NoneActive(tail);
          assert false;
        }
        assert ActiveOnlyAt(tail, k - 1);
      }
    }
  }

  /** After `changeActiveItem` exactly one child is active, the one at the
      current index, and no width or display style has changed. */
  lemma MarkActiveSelectsOne(cs: seq<SlideElement>, k: int)
    requires 0 <= k < |cs|
    ensures |MarkActive(cs, k)| == |cs|
    ensures ActiveOnlyAt(MarkActive(cs, k), k)
    ensures ActiveCount(MarkActive(cs, k)) == 1
    ensures forall i :: 0 <= i < |cs| ==>
      MarkActive(cs, k)[i].width == cs[i].width &&
      MarkActive(cs, k)[i].displayBlock == cs[i].displayBlock
  {
    ActiveCountOne(MarkActive(cs, k), k);
  }

  /** Marking is idempotent and forgets which children were active before. */
  lemma MarkActiveForgetsOldMarkers(cs: seq<SlideElement>, ds: seq<SlideElement>, k: int)
    requires |cs| == |ds|
    requires forall i :: 0 <= i < |cs| ==> cs[i].width == ds[i].width && cs[i].displayBlock == ds[i].displayBlock
    ensures MarkActive(cs, k) == MarkActive(ds, k)
    ensures MarkActive(MarkActive(cs, k), k) == MarkActive(cs, k)
  {
  }

  /** Sized children sum to the count times the width. */
  lemma {:induction false} SizedTotal(cs: seq<SlideElement>, w: int)
    requires AllSized(cs, w)
    ensures TotalWidth(cs) == |cs| * w
  {
    if cs != [] {
      assert AllSized(cs[1..], w) by {
        assert forall i :: 0 <= i < |cs| - 1 ==> cs[1..][i] == cs[i + 1];
      }
      SizedTotal(cs[1..], w);
      assert |cs| * w == (|cs| - 1) * w + w;
    }
  }

  /** After `setItemsWidth` with width `w`: every child is `w` wide and
      displayed, the widths add up to the track width `|cs| * w`, and the
      active markers are untouched. */
  lemma ResizedFits(cs: seq<SlideElement>, w: int)
    ensures |Resized(cs, w)| == |cs|
    ensures AllSized(Resized(cs, w), w)
    ensures TotalWidth(Resized(cs, w)) == |cs| * w
    ensures forall i :: 0 <= i < |cs| ==> Resized(cs, w)[i].active == cs[i].active
  {
    SizedTotal(Resized(cs, w), w);
  }

  /** Resizing and re-marking act on disjoint parts of a child, so their
      order does not matter. */
  lemma ResizeCommutesWithMark(cs: seq<SlideElement>, w: int, k: int)
    ensures Resized(MarkActive(cs, k), w) == MarkActive(Resized(cs, w), k)
  {
  }
}
