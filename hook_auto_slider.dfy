/**
 * The `useAutoSlider` hook: the same state cell and cyclic navigators as
 * `useManualSlider` (the file repeats them line for line), plus an effect
 * that sets an interval calling `navigateToNext`. The effect depends on
 * `navigateToNext`, whose identity changes with `activeSlideIndex` and
 * `slidesCount`, so every index change clears the interval and sets a new one.
 */
module AutoSliderHook {
  import opened Wrappers
  import opened ManualSliderHook

  /** Default `autoPlayInterval`, in milliseconds. */
  const DefaultAutoPlayInterval: int := 5000

  /** `k` interval ticks with no other navigation. */
  function Ticks(k: nat): (r: seq<Nav>)
    ensures |r| == k && forall i :: 0 <= i < k ==> r[i] == Next
  {
    seq(k, _ => Next)
  }

  /** `k` ticks from an index in range, with no other event, show `(active + k) % slidesCount`. */
  lemma {:induction false} TicksAdvanceModulo(slidesCount: int, active: int, k: nat)
    requires 0 <= active < slidesCount
    ensures Run(slidesCount, active, Ticks(k)) == (active + k) % slidesCount
  {
    TicksAreNextTimes(slidesCount, active, k);
    NextTimesIsModular(slidesCount, active, k);
  }

  lemma {:induction false} TicksAreNextTimes(slidesCount: int, active: int, k: nat)
    ensures Run(slidesCount, active, Ticks(k)) == NextTimes(slidesCount, active, k)
    decreases k
  {
    if k > 0 {
      assert Ticks(k)[1..] == Ticks(k - 1);
      TicksAreNextTimes(slidesCount, NextIndex(slidesCount, active), k - 1);
    }
  }

  /**
   * A mounted hook. `timer` is the interval the last effect run set up,
   * `live` the intervals the browser runs for this hook.
   */
  class Hook {
    var slidesCount: int
    var autoPlayInterval: int
    var activeSlideIndex: int
    var mounted: bool
    var timer: Option<nat>
    var live: set<nat>
    var nextTimerId: nat

    /** While mounted exactly the effect's interval runs; after unmount none does. */
    ghost predicate Valid()
      reads this
    {
      && nextTimerId > 0
      && (forall t :: t in live ==> 0 < t < nextTimerId)
      && (mounted ==> timer.Some? && live == {timer.value})
      && (!mounted ==> live == {})
    }

    /** Mount: `useState(0)`, then the effect sets the first interval. */
    constructor (slidesCount: int, autoPlayInterval: Option<int>)
      ensures Valid() && mounted && |live| == 1
      ensures this.slidesCount == slidesCount && activeSlideIndex == 0
      ensures this.autoPlayInterval == autoPlayInterval.GetOr(DefaultAutoPlayInterval)
    {
      this.slidesCount := slidesCount;
      this.autoPlayInterval := autoPlayInterval.GetOr(DefaultAutoPlayInterval);
      activeSlideIndex := 0;
      mounted := true;
      timer := Some(1);
      live := {1};
      nextTimerId := 2;
    }

    /** The effect's cleanup (`clearInterval`) followed by its next run (`setInterval`). */
    method RestartTimer()
      requires Valid() && mounted
      modifies this`timer, this`live, this`nextTimerId
      ensures Valid() && |live| == 1 && live !! old(live)
    {
      live := live - {timer.value};
      timer := Some(nextTimerId);
      live := live + {nextTimerId};
      nextTimerId := nextTimerId + 1;
    }

    /**
     * `setCurrentIndex(newIndex)`: a new value re-renders, which gives
     * `navigateToNext` a new identity and so restarts the interval; the same
     * value is a bail-out that changes nothing.
     */
    method Commit(newIndex: int)
      requires Valid() && mounted
      modifies this`activeSlideIndex, this`timer, this`live, this`nextTimerId
      ensures Valid() && activeSlideIndex == newIndex && |live| == 1
      ensures newIndex != old(activeSlideIndex) ==> live !! old(live)
      ensures newIndex == old(activeSlideIndex) ==> live == old(live) && timer == old(timer)
    {
      if newIndex != activeSlideIndex {
        activeSlideIndex := newIndex;
        RestartTimer();
      }
    }

    method NavigateToPrevious()
      requires Valid() && mounted
      modifies this
      ensures Valid() && mounted && |live| == 1
      ensures activeSlideIndex != old(activeSlideIndex) ==> live !! old(live)
      ensures activeSlideIndex == old(activeSlideIndex) ==> live == old(live) && timer == old(timer)
      ensures activeSlideIndex == PreviousIndex(slidesCount, old(activeSlideIndex))
      ensures slidesCount == old(slidesCount) && autoPlayInterval == old(autoPlayInterval)
    {
      Commit(PreviousIndex(slidesCount, activeSlideIndex));
    }

    method NavigateToNext()
      requires Valid() && mounted
      modifies this
      ensures Valid() && mounted && |live| == 1
      ensures activeSlideIndex != old(activeSlideIndex) ==> live !! old(live)
      ensures activeSlideIndex == old(activeSlideIndex) ==> live == old(live) && timer == old(timer)
      ensures activeSlideIndex == NextIndex(slidesCount, old(activeSlideIndex))
      ensures slidesCount == old(slidesCount) && autoPlayInterval == old(autoPlayInterval)
    {
      Commit(NextIndex(slidesCount, activeSlideIndex));
    }

    /** Stores `slideIndex` as given: no range check. */
    method NavigateToSlide(slideIndex: int)
      requires Valid() && mounted
      modifies this
      ensures Valid() && mounted && |live| == 1
      ensures activeSlideIndex != old(activeSlideIndex) ==> live !! old(live)
      ensures activeSlideIndex == old(activeSlideIndex) ==> live == old(live) && timer == old(timer)
      ensures activeSlideIndex == slideIndex
      ensures slidesCount == old(slidesCount) && autoPlayInterval == old(autoPlayInterval)
    {
      Commit(slideIndex);
    }

    /** The live interval fires and calls `navigateToNext`. */
    method IntervalElapsed()
      requires Valid() && mounted
      modifies this
      ensures Valid() && mounted && |live| == 1
      ensures activeSlideIndex == NextIndex(slidesCount, old(activeSlideIndex))
      ensures slidesCount == old(slidesCount) && autoPlayInterval == old(autoPlayInterval)
      ensures activeSlideIndex != old(activeSlideIndex) ==> live !! old(live)
      ensures activeSlideIndex == old(activeSlideIndex) ==> live == old(live) && timer == old(timer)
    {
      NavigateToNext();
    }

    /** A re-render with new props: a new slide count or interval also restarts the interval. */
    method SetProps(slidesCount: int, autoPlayInterval: Option<int>)
      requires Valid() && mounted
      modifies this
      ensures Valid() && mounted && |live| == 1
      ensures this.slidesCount == slidesCount && activeSlideIndex == old(activeSlideIndex)
      ensures this.autoPlayInterval == autoPlayInterval.GetOr(DefaultAutoPlayInterval)
      ensures this.slidesCount == old(this.slidesCount) && this.autoPlayInterval == old(this.autoPlayInterval)
        ==> live == old(live)
      ensures this.slidesCount != old(this.slidesCount) || this.autoPlayInterval != old(this.autoPlayInterval)
        ==> live !! old(live)
    {
      var interval := autoPlayInterval.GetOr(DefaultAutoPlayInterval);
      if slidesCount != this.slidesCount || interval != this.autoPlayInterval {
        this.slidesCount := slidesCount;
        this.autoPlayInterval := interval;
        RestartTimer();
      }
    }

    /** Unmount: the effect's cleanup clears the interval; nothing keeps firing. */
    method Unmount()
      requires Valid() && mounted
      modifies this
      ensures Valid() && !mounted && live == {}
      ensures activeSlideIndex == old(activeSlideIndex)
    {
      live := live - {timer.value};
      mounted := false;
    }
  }
}
