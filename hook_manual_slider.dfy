/**
 * The `useManualSlider` hook: one state cell `activeSlideIndex`, moved by
 * `navigateToPrevious` and `navigateToNext`, which wrap around cyclically,
 * and by `navigateToSlide`, which stores whatever index it is given.
 * Unlike the slider of app.js it never clamps and never checks bounds.
 */
module ManualSliderHook {
  import opened Modular

  /** The index `navigateToPrevious` stores: the last slide from the first, else one back. */
  function PreviousIndex(slidesCount: int, active: int): int {
    if active == 0 then slidesCount - 1 else active - 1
  }

  /** The index `navigateToNext` stores: the first slide from the last, else one on. */
  function NextIndex(slidesCount: int, active: int): int {
    if active == slidesCount - 1 then 0 else active + 1
  }

  /** In range, the two navigators are the successor and predecessor modulo the slide count. */
  lemma NavigatorsAreModular(slidesCount: int, active: int)
    requires 0 <= active < slidesCount
    ensures NextIndex(slidesCount, active) == (active + 1) % slidesCount
    ensures PreviousIndex(slidesCount, active) == (active - 1 + slidesCount) % slidesCount
  {
    if active == slidesCount - 1 {
      assert active + 1 == 1 * slidesCount + 0;
    }
  }

  /** Both navigators keep an index in `[0, slidesCount - 1]`. */
  lemma NavigatorsKeepRange(slidesCount: int, active: int)
    requires 0 <= active < slidesCount
    ensures 0 <= NextIndex(slidesCount, active) < slidesCount
    ensures 0 <= PreviousIndex(slidesCount, active) < slidesCount
  {
  }

  /** Next then previous, and previous then next, come back to the start. */
  lemma NavigatorsAreInverse(slidesCount: int, active: int)
    requires 0 <= active < slidesCount
    ensures PreviousIndex(slidesCount, NextIndex(slidesCount, active)) == active
    ensures NextIndex(slidesCount, PreviousIndex(slidesCount, active)) == active
  {
  }

  /** Without slides the hook leaves the range at once: previous from 0 stores -1. */
  lemma NoSlidesLeavesRange()
    ensures PreviousIndex(0, 0) == -1 && NextIndex(0, 0) == 1
  {
  }

  /** The navigation events the hook's callers can issue. */
  datatype Nav = Previous | Next | ToSlide(slideIndex: int)

  function Step(slidesCount: int, active: int, nav: Nav): int {
    match nav
    case Previous => PreviousIndex(slidesCount, active)
    case Next => NextIndex(slidesCount, active)
    case ToSlide(k) => k
  }

  function Run(slidesCount: int, active: int, navs: seq<Nav>): int
    decreases |navs|
  {
    if navs == [] then active else Run(slidesCount, Step(slidesCount, active, navs[0]), navs[1..])
  }

  /** `k` presses of "next" from `active`. */
  function NextTimes(slidesCount: int, active: int, k: nat): int
    decreases k
  {
    if k == 0 then active else NextTimes(slidesCount, NextIndex(slidesCount, active), k - 1)
  }

  /** Any sequence of previous/next (and in-range jumps) keeps the index in `[0, slidesCount - 1]`. */
  lemma {:induction false} RunStaysInRange(slidesCount: int, active: int, navs: seq<Nav>)
    requires 0 <= active < slidesCount
    requires forall i :: 0 <= i < |navs| && navs[i].ToSlide? ==> 0 <= navs[i].slideIndex < slidesCount
    ensures 0 <= Run(slidesCount, active, navs) < slidesCount
    decreases |navs|
  {
    if navs != [] {
      NavigatorsKeepRange(slidesCount, active);
      RunStaysInRange(slidesCount, Step(slidesCount, active, navs[0]), navs[1..]);
    }
  }

  /** `k` nexts from an index in range land on `(active + k) % slidesCount`. */
  lemma {:induction false} NextTimesIsModular(slidesCount: int, active: int, k: nat)
    requires 0 <= active < slidesCount
    ensures NextTimes(slidesCount, active, k) == (active + k) % slidesCount
    decreases k
  {
    if k > 0 {
      var next := NextIndex(slidesCount, active);
      NavigatorsAreModular(slidesCount, active);
      NextTimesIsModular(slidesCount, next, k - 1);
      if active == slidesCount - 1 {
        assert next + (k - 1) == active + k - slidesCount;
        assert active + k == 1 * slidesCount + (next + (k - 1));
        ModShift(next + (k - 1), 1, slidesCount);
      }
    }
  }

  /** `slidesCount` consecutive nexts return to the start. */
  lemma {:induction false} FullCycleReturns(slidesCount: int, active: int)
    requires 0 <= active < slidesCount
    ensures NextTimes(slidesCount, active, slidesCount) == active
  {
    NextTimesIsModular(slidesCount, active, slidesCount);
    ModShift(active, 1, slidesCount);
  }

  /**
   * The hook's state cell and the latest `slidesCount` prop; each navigator
   * re-renders with the index it stored.
   */
  class Hook {
    var slidesCount: int
    var activeSlideIndex: int

    /** `useState(0)`. */
    constructor (slidesCount: int)
      ensures this.slidesCount == slidesCount && activeSlideIndex == 0
    {
      this.slidesCount := slidesCount;
      activeSlideIndex := 0;
    }

    method NavigateToPrevious()
      modifies this
      ensures activeSlideIndex == PreviousIndex(slidesCount, old(activeSlideIndex))
      ensures slidesCount == old(slidesCount)
    {
      var isFirstSlide := activeSlideIndex == 0;
      activeSlideIndex := if isFirstSlide then slidesCount - 1 else activeSlideIndex - 1;
    }

    method NavigateToNext()
      modifies this
      ensures activeSlideIndex == NextIndex(slidesCount, old(activeSlideIndex))
      ensures slidesCount == old(slidesCount)
    {
      var isLastSlide := activeSlideIndex == slidesCount - 1;
      activeSlideIndex := if isLastSlide then 0 else activeSlideIndex + 1;
    }

    /** Stores `slideIndex` as given: no range check. */
    method NavigateToSlide(slideIndex: int)
      modifies this
      ensures activeSlideIndex == slideIndex && slidesCount == old(slidesCount)
    {
      activeSlideIndex := slideIndex;
    }

    /** A re-render with a new `slidesCount`: the navigators read it from then on; the index is kept. */
    method SetProps(slidesCount: int)
      modifies this
      ensures this.slidesCount == slidesCount && activeSlideIndex == old(activeSlideIndex)
    {
      this.slidesCount := slidesCount;
    }
  }
}
