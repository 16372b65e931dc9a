/**
 * The dashboard slider: one `currentSlide` index over three fixed slides,
 * advanced by the interval (wrapping from the last slide to the first) and
 * set directly by the dot buttons. Only the slide at that index is shown.
 */
module DashboardSlider {

  /** `SLIDER_ITEMS.length`. */
  const SlideCount := 3

  /** The interval's update: the last slide wraps round to the first, any other index moves on by one. */
  function NextSlide(prev: int): (next: int)
    ensures prev == SlideCount - 1 ==> next == 0
    ensures prev != SlideCount - 1 ==> next == prev + 1
    ensures 0 <= prev < SlideCount ==> 0 <= next < SlideCount && next == (prev + 1) % SlideCount
  {
    if prev == SlideCount - 1 then 0 else prev + 1
  }

  /** The index after `n` ticks from `start`. */
  function Ticks(start: int, n: nat): int {
    if n == 0 then start else NextSlide(Ticks(start, n - 1))
  }

  /** From a valid index, `n` ticks advance it by `n` modulo the slide count. */
  lemma {:induction false} TicksAdvance(start: int, n: nat)
    requires 0 <= start < SlideCount
    ensures Ticks(start, n) == (start + n) % SlideCount
  {
    if n > 0 {
      TicksAdvance(start, n - 1);
      var prev := (start + n - 1) % SlideCount;
      assert Ticks(start, n) == NextSlide(prev);
      assert (prev + 1) % SlideCount == (start + n) % SlideCount;
    }
  }

  /** A full round of ticks brings the slider back to where it started. */
  lemma FullRound(start: int)
    requires 0 <= start < SlideCount
    ensures Ticks(start, SlideCount) == start
  {
    TicksAdvance(start, SlideCount);
  }

  /** Slide `index` is drawn opaque (and its dot solid) when it is the current slide. */
  predicate Shown(index: int, current: int) {
    index == current
  }

  /** The slides drawn opaque. */
  function VisibleSlides(current: int): (shown: set<int>)
    ensures 0 <= current < SlideCount ==> shown == {current}
    ensures !(0 <= current < SlideCount) ==> shown == {}
  {
    set i | 0 <= i < SlideCount && Shown(i, current)
  }

  class Slider {
    var currentSlide: int

    ghost predicate Valid()
      reads this
    {
      0 <= currentSlide < SlideCount
    }

    constructor ()
      ensures Valid() && currentSlide == 0
    {
      currentSlide := 0;
    }

    /** One firing of the interval. */
    method Tick()
      requires Valid()
      modifies this
      ensures Valid()
      ensures currentSlide == NextSlide(old(currentSlide))
    {
      currentSlide := if currentSlide == SlideCount - 1 then 0 else currentSlide + 1;
    }

    /** The dot button `index`; the buttons exist only for the slides. */
    method Click(index: int)
      requires 0 <= index < SlideCount
      modifies this
      ensures Valid()
      ensures currentSlide == index
    {
      currentSlide := index;
    }
  }
}
