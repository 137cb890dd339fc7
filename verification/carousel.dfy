/**
 * The testimonial slider (src/components/Testimonials.jsx).
 *
 * The slider shows one testimonial per view on narrow screens and two on
 * wide ones. Its active index runs over [0, count - slidesPerView] so that
 * the last view is never half empty; "next" wraps from the end to the first
 * view, "prev" wraps from the first view to the last, a pagination dot jumps
 * straight to its view, and an autoplay timer keeps calling "next" while the
 * pointer is not over the slider.
 */
module Carousel {

  import Modular

  /** Below this window width (in CSS pixels) the slider is in its mobile layout. */
  const MobileBreakpoint: int := 768

  /** The layout chosen by the resize handler for a window width. */
  function IsMobileWidth(width: int): bool
  {
    width < MobileBreakpoint
  }

  /** Testimonials visible at once: one in the mobile layout, two otherwise. */
  function SlidesPerView(isMobile: bool): nat
  {
    if isMobile then 1 else 2
  }

  /**
   * The last admissible active index: the view starting there is full, and
   * no later index starts a full view. With at least one full view it names
   * a testimonial.
   */
  function MaxIndex(count: nat, isMobile: bool): (m: int)
    ensures m + SlidesPerView(isMobile) <= count
    ensures (m + 1) + SlidesPerView(isMobile) > count
    ensures count >= SlidesPerView(isMobile) ==> 0 <= m < count
  {
    count - SlidesPerView(isMobile)
  }

  /**
   * The "next" updater. From any index at or past the last view it wraps to
   * 0 (so an index left out of range by a resize is repaired); otherwise it
   * moves one view on.
   */
  function NextIndex(prev: int, maxIndex: int): (r: int)
    ensures 0 <= prev && 0 <= maxIndex ==> 0 <= r <= maxIndex
    ensures prev >= maxIndex ==> r == 0
    ensures prev < maxIndex ==> r == prev + 1
  {
    if prev >= maxIndex then 0 else prev + 1
  }

  /**
   * The "prev" updater. From the first view it wraps to the last one;
   * otherwise it moves one view back. An index at most one past the last view
   * (the most a resize can leave behind) lands back in range.
   */
  function PrevIndex(prev: int, maxIndex: int): (r: int)
    ensures 0 <= prev <= maxIndex + 1 && 0 <= maxIndex ==> 0 <= r <= maxIndex
    ensures prev == 0 ==> r == maxIndex
    ensures prev != 0 ==> r == prev - 1
  {
    if prev == 0 then maxIndex else prev - 1
  }

  /**
   * The number of pagination dots, `count - (slidesPerView - 1)`, with the
   * clamping of a negative array length to zero. Whenever there is at least
   * one full view, there is exactly one dot per admissible active index.
   */
  function DotCount(count: nat, isMobile: bool): (d: nat)
    ensures count >= SlidesPerView(isMobile) ==> d == MaxIndex(count, isMobile) + 1
    ensures count < SlidesPerView(isMobile) ==> d == 0
  {
    var n := count - (SlidesPerView(isMobile) - 1);
    if n < 0 then 0 else n
  }

  /** The mobile layout admits exactly one more view than the desktop one. */
  lemma MaxIndexByLayout(count: nat)
    requires count >= 2
    ensures MaxIndex(count, true) == count - 1
    ensures MaxIndex(count, false) == count - 2
    ensures 0 <= MaxIndex(count, false) < MaxIndex(count, true) < count
  {
  }

  /**
   * A resize keeps the index but may shrink the range of views; whatever the
   * new layout, one press of "next" or "prev" from an index naming a
   * testimonial lands back on an admissible view.
   */
  lemma NavigationRepairsResize(count: nat, i: int, width: int)
    requires count >= 2 && 0 <= i < count
    ensures var m := MaxIndex(count, IsMobileWidth(width));
            && 0 <= NextIndex(i, m) <= m
            && 0 <= PrevIndex(i, m) <= m
  {
    MaxIndexByLayout(count);
  }

  /** On [0, maxIndex], "prev" undoes "next". */
  lemma PrevUndoesNext(i: int, maxIndex: int)
    requires 0 <= i <= maxIndex
    ensures PrevIndex(NextIndex(i, maxIndex), maxIndex) == i
  {
  }

  /** On [0, maxIndex], "next" undoes "prev". */
  lemma NextUndoesPrev(i: int, maxIndex: int)
    requires 0 <= i <= maxIndex
    ensures NextIndex(PrevIndex(i, maxIndex), maxIndex) == i
  {
  }

  /** `k` presses of "next" (or `k` autoplay ticks). */
  function Advance(i: int, maxIndex: int, k: nat): int
    decreases k
  {
    if k == 0 then i else Advance(NextIndex(i, maxIndex), maxIndex, k - 1)
  }

  /** Repeated "next" walks the views cyclically: `k` steps from `i` reach `(i + k) mod (maxIndex + 1)`. */
  lemma {:induction false} AdvanceIsCyclic(i: int, maxIndex: int, k: nat)
    requires 0 <= i <= maxIndex
    ensures Advance(i, maxIndex, k) == (i + k) % (maxIndex + 1)
    decreases k
  {
    var n := maxIndex + 1;
    if k == 0 {
      Modular.ModUnique(i, n, 0, i);
    } else {
      var j := NextIndex(i, maxIndex);
      AdvanceIsCyclic(j, maxIndex, k - 1);
      // j == (i + 1) % n, so (j + k - 1) % n == (i + k) % n
      Modular.ModUnique(i + 1, n, if i < maxIndex then 0 else 1, j);
      ShiftMod(i + 1, j, n, k - 1);
    }
  }

  /** Numbers with the same remainder keep the same remainder after adding `k`. */
  lemma {:induction false} ShiftMod(a: nat, b: nat, n: nat, k: nat)
    requires n > 0 && a % n == b % n
    ensures (a + k) % n == (b + k) % n
    decreases k
  {
    if k > 0 {
      var a', b' := a + (k - 1), b + (k - 1);
      ShiftMod(a, b, n, k - 1);
      assert a' % n == b' % n;
      Modular.ModSucc(a', n);
      Modular.ModSucc(b', n);
      assert a + k == a' + 1 && b + k == b' + 1;
    }
  }

  /** Autoplay visits every view and is back where it started after `maxIndex + 1` ticks. */
  lemma AdvanceFullCycle(i: int, maxIndex: int)
    requires 0 <= i <= maxIndex
    ensures Advance(i, maxIndex, maxIndex + 1) == i
    ensures forall k: nat :: k <= maxIndex ==> 0 <= Advance(i, maxIndex, k) <= maxIndex
  {
    AdvanceIsCyclic(i, maxIndex, maxIndex + 1);
    Modular.ModUnique(i + maxIndex + 1, maxIndex + 1, 1, i);
    forall k: nat | k <= maxIndex
      ensures 0 <= Advance(i, maxIndex, k) <= maxIndex
    {
      AdvanceIsCyclic(i, maxIndex, k);
    }
  }

  /** The mounted slider over `count` testimonials. */
  class Slider {
    const count: nat
    var activeIndex: int
    var isAutoPlaying: bool
    var isMobile: bool

    /** The index always names a testimonial; a resize may leave it one past the last view. */
    ghost predicate Valid()
      reads this
    {
      count >= 2 && 0 <= activeIndex < count
    }

    function MaxIdx(): int
      reads this
    {
      MaxIndex(count, isMobile)
    }

    /** The active index is one of the views the current layout admits. */
    predicate InRange()
      reads this
    {
      0 <= activeIndex <= MaxIdx()
    }

    /**
     * The pagination dots as drawn, in order: `true` for a highlighted dot.
     * Whenever the index is admissible exactly one dot is highlighted, the
     * one at the active index.
     */
    function Dots(): (dots: seq<bool>)
      reads this
      requires Valid()
      ensures |dots| == DotCount(count, isMobile)
      ensures InRange() ==> activeIndex < |dots| && dots[activeIndex]
      ensures forall i :: 0 <= i < |dots| && dots[i] ==> i == activeIndex
    {
      var active := activeIndex;
      seq(DotCount(count, isMobile), i => i == active)
    }

    constructor (count: nat)
      requires count >= 2
      ensures this.count == count
      ensures activeIndex == 0 && isAutoPlaying && !isMobile
      ensures Valid() && InRange()
    {
      this.count := count;
      activeIndex := 0;
      isAutoPlaying := true;
      isMobile := false;
    }

    /** The resize handler (also run once on mount): only the layout changes. */
    method Resize(width: int)
      requires Valid()
      modifies this
      ensures Valid()
      ensures isMobile == IsMobileWidth(width)
      ensures activeIndex == old(activeIndex) && isAutoPlaying == old(isAutoPlaying)
    {
      isMobile := width < MobileBreakpoint;
    }

    /** The "next" button. */
    method NextSlide()
      requires Valid()
      modifies this
      ensures Valid() && InRange()
      ensures activeIndex == NextIndex(old(activeIndex), MaxIdx())
      ensures isMobile == old(isMobile) && isAutoPlaying == old(isAutoPlaying)
    {
      activeIndex := if activeIndex >= MaxIdx() then 0 else activeIndex + 1;
    }

    /** The "prev" button. */
    method PrevSlide()
      requires Valid()
      modifies this
      ensures Valid() && InRange()
      ensures activeIndex == PrevIndex(old(activeIndex), MaxIdx())
      ensures isMobile == old(isMobile) && isAutoPlaying == old(isAutoPlaying)
    {
      activeIndex := if activeIndex == 0 then MaxIdx() else activeIndex - 1;
    }

    /** A click on pagination dot `i`; only dots `0 .. DotCount - 1` are drawn. */
    method SelectDot(i: nat)
      requires Valid() && i < DotCount(count, isMobile)
      modifies this
      ensures Valid() && InRange()
      ensures activeIndex == i
      ensures isMobile == old(isMobile) && isAutoPlaying == old(isAutoPlaying)
      ensures Dots()[i]
    {
      activeIndex := i;
    }

    /** The pointer enters the slider: autoplay stops. */
    method MouseEnter()
      requires Valid()
      modifies this
      ensures Valid()
      ensures !isAutoPlaying
      ensures activeIndex == old(activeIndex) && isMobile == old(isMobile)
    {
      isAutoPlaying := false;
    }

    /** The pointer leaves the slider: autoplay resumes. */
    method MouseLeave()
      requires Valid()
      modifies this
      ensures Valid()
      ensures isAutoPlaying
      ensures activeIndex == old(activeIndex) && isMobile == old(isMobile)
    {
      isAutoPlaying := true;
    }

    /** The autoplay interval fires; it is only scheduled while autoplay is on. */
    method AutoplayTick()
      requires Valid()
      modifies this
      ensures Valid()
      ensures old(isAutoPlaying) ==> activeIndex == NextIndex(old(activeIndex), MaxIdx()) && InRange()
      ensures !old(isAutoPlaying) ==> activeIndex == old(activeIndex)
      ensures isMobile == old(isMobile) && isAutoPlaying == old(isAutoPlaying)
    {
      if isAutoPlaying {
        NextSlide();
      }
    }
  }
}
